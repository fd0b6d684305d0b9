/**
 * No orphaned onboarding account: each account still being onboarded hangs on its own claimed, unused
 * "new" invite, in every run in which no token reveal takes such an invite away, and in no other.
 */
module OnboardingAccounts {
  import opened Options
  import opened Invites
  import opened Onboarding

  predicate IsHome(t: Tables, h: string, a: string) {
    && h in t.invites && t.invites[h].kind == New && t.invites[h].account == Some(a)
    && t.invites[h].claimedAt.Some? && t.invites[h].usedAt.None?
  }

  ghost predicate HasHome(t: Tables, a: string) {
    exists h :: IsHome(t, h, a)
  }

  predicate BeingOnboarded(t: Tables, a: string) {
    a in t.accounts && t.accounts[a].status == Invites.Onboarding
  }

  ghost predicate Attached(t: Tables) {
    forall a | BeingOnboarded(t, a) :: HasHome(t, a)
  }

  // ------------------------------------------------------------------ what every step keeps

  /** No two "new" invites are bound to the same account. */
  ghost predicate OwnInvite(t: Tables) {
    forall h, k | h in t.invites && k in t.invites && h != k && t.invites[h].kind == New && t.invites[k].kind == New
      && t.invites[h].account.Some? :: t.invites[h].account != t.invites[k].account
  }

  predicate IdKnown(i: Invite, ids: set<string>) {
    i.kind == New && i.account.Some? ==> i.account.value in ids
  }

  ghost predicate IdsKnown(s: State) {
    s.t.accounts.Keys <= s.ids && forall h | h in s.t.invites :: IdKnown(s.t.invites[h], s.ids)
  }

  /** A claim comes with a session; a "new" invite was claimed by open() or by a reveal, and bound by open(). */
  predicate ClaimKnown(i: Invite, byOpen: bool, secret: set<string>) {
    && (i.claimedAt.Some? ==> i.session.Some? && i.sessionExpiresAt.Some?)
    && (i.kind == New && i.claimedAt.Some? ==> byOpen || i.session.value in secret)
    && (i.kind == New && i.account.Some? ==> i.claimedAt.Some? && byOpen)
  }

  ghost predicate ClaimsKnown(s: State) {
    forall h | h in s.t.invites :: ClaimKnown(s.t.invites[h], h in s.byOpen, s.secret)
  }

  ghost predicate Books(s: State) {
    OwnInvite(s.t) && IdsKnown(s) && ClaimsKnown(s) && s.underWay.Keys <= s.secret
  }

  ghost predicate Good(s: State) {
    Attached(s.t) && Books(s)
  }

  /** Rewriting one invite, and binding it to nobody else's account, keeps the books. */
  lemma OneInviteKeepsBooks(s: State, r: State, h: string)
    requires Books(s) && OnlyInvite(s.t, r.t, h) && h in s.t.invites && h in r.t.invites
    requires r.t.invites[h].kind == s.t.invites[h].kind && r.t.accounts.Keys <= r.ids
    requires var a := r.t.invites[h].account;
      a == s.t.invites[h].account || a == None || (a.value !in s.ids && a.value in r.ids)
    requires ClaimKnown(r.t.invites[h], h in r.byOpen, r.secret)
    requires s.byOpen - {h} <= r.byOpen && s.secret <= r.secret && s.ids <= r.ids && r.underWay.Keys <= r.secret
    ensures Books(r)
  {
    OneInviteKeepsOwn(s, r.t, h);
    assert IdsKnown(r) by {
      forall k | k in r.t.invites ensures IdKnown(r.t.invites[k], r.ids) {
        assert k in s.t.invites && IdKnown(s.t.invites[k], s.ids);
      }
    }
    forall k | k in r.t.invites ensures ClaimKnown(r.t.invites[k], k in r.byOpen, r.secret) {
      assert k in s.t.invites && ClaimKnown(s.t.invites[k], k in s.byOpen, s.secret);
    }
  }

  lemma OneInviteKeepsOwn(s: State, r: Tables, h: string)
    requires OwnInvite(s.t) && IdsKnown(s) && OnlyInvite(s.t, r, h) && h in s.t.invites && h in r.invites
    requires r.invites[h].kind == s.t.invites[h].kind
    requires var a := r.invites[h].account; a == s.t.invites[h].account || a == None || a.value !in s.ids
    ensures OwnInvite(r)
  {
    forall k | k in r.invites ensures k in s.t.invites && IdKnown(s.t.invites[k], s.ids) {}
  }

  lemma OpenKeepsBooks(s: State, h: string, session: string, id: string)
    requires Books(s)
    ensures Books(Step(s, OpenLink(h, session, id)))
  {
    var r := Step(s, OpenLink(h, session, id));
    var (t1, c) := MemClaim(s.t, h, session, SESSION_TTL, Some(MAX_CONCURRENT), s.now);
    if id !in s.ids && session !in s.secret {
      if c.Claimed? {
        ClaimInviteEffect(s.t, h, session, SESSION_TTL, Some(MAX_CONCURRENT), s.now);
        assert ClaimKnown(s.t.invites[h], h in s.byOpen, s.secret);
        var m := s.(t := Abandon(t1, c.abandoned), byOpen := r.byOpen);
        assert m.t.invites == s.t.invites[h := c.invite] && m.t.accounts.Keys == s.t.accounts.Keys;
        PutIsOnly(s.t, m.t, h, c.invite);
        OneInviteKeepsBooks(s, m, h);
        PrepareKeepsBooks(m, h, id);
      } else {
        BooksIgnoreIds(s, r);
      }
    }
  }

  lemma BooksIgnoreIds(s: State, r: State)
    requires Books(s) && r == s.(ids := r.ids) && s.ids <= r.ids
    ensures Books(r)
  {
    forall k | k in r.t.invites ensures IdKnown(r.t.invites[k], r.ids) {
      assert IdKnown(s.t.invites[k], s.ids);
    }
  }

  lemma PrepareKeepsBooks(s: State, h: string, id: string)
    requires Books(s) && h in s.t.invites && id !in s.ids
    requires s.t.invites[h].kind == New ==> s.t.invites[h].claimedAt.Some? && h in s.byOpen
    ensures Books(s.(t := Prepare(s.t, h, s.t.invites[h], id), ids := s.ids + {id}))
  {
    var i, r := s.t.invites[h], s.(t := Prepare(s.t, h, s.t.invites[h], id), ids := s.ids + {id});
    PrepareEffect(s.t, h, id);
    if r.t == s.t {
      BooksIgnoreIds(s, r);
    } else {
      PutIsOnly(s.t, r.t, h, r.t.invites[h]);
      assert ClaimKnown(i, h in s.byOpen, s.secret);
      OneInviteKeepsBooks(s, r, h);
    }
  }

  lemma AlikeKeepsBooks(s: State, r: Tables, h: string)
    requires Books(s) && OnlyInvite(s.t, r, h) && h in s.t.invites && h in r.invites
    requires BoundAlike(s.t.invites[h], r.invites[h]) && r.accounts.Keys == s.t.accounts.Keys
    ensures Books(s.(t := r))
  {
    assert ClaimKnown(s.t.invites[h], h in s.byOpen, s.secret);
    OneInviteKeepsBooks(s, s.(t := r), h);
  }

  lemma SessionKeepsBooks(s: State, x: Action)
    requires Books(s) && (x.LoggedIn? || x.Attempted?)
    ensures Books(Step(s, x))
  {
    if InSession(s.t, x.h, s.now) {
      if x.LoggedIn? {
        FinishInvite(s.t, x.h, x.tg, x.username, x.putOk, s.now);
        FinishAccounts(s.t, x.h, x.tg, x.username, x.putOk, s.now);
        AlikeKeepsBooks(s, Finish(s.t, x.h, x.tg, x.username, x.putOk, s.now), x.h);
      } else {
        SubmitInvite(s.t, x.h, x.kind, s.now);
        SubmitAccounts(s.t, x.h, x.kind, s.now);
        AlikeKeepsBooks(s, Submit(s.t, x.h, x.kind, s.now), x.h);
      }
    }
  }

  /** finish() puts nobody into onboarding, and leaves an account there only with its invite unused. */
  lemma FinishAccounts(t: Tables, h: string, tg: string, username: Option<string>, putOk: bool, now: int)
    requires InSession(t, h, now)
    ensures var r := Finish(t, h, tg, username, putOk, now); var id := t.invites[h].account.value;
      && r.accounts.Keys == t.accounts.Keys && h in r.invites
      && (forall a | a in t.accounts && a != id :: r.accounts[a] == t.accounts[a])
      && r.accounts[id].tokenShownAt == t.accounts[id].tokenShownAt
      && (r.accounts[id].status == Invites.Onboarding ==>
           t.accounts[id].status == Invites.Onboarding
           && (t.invites[h].kind == New ==> r.invites[h].usedAt == t.invites[h].usedAt))
  {
  }

  lemma SubmitAccounts(t: Tables, h: string, k: Attempt, now: int)
    requires InSession(t, h, now)
    ensures var r := Submit(t, h, k, now); var id := t.invites[h].account.value;
      && r.accounts.Keys == t.accounts.Keys && h in r.invites
      && (forall a | a in t.accounts && a != id :: r.accounts[a] == t.accounts[a])
      && r.accounts[id].tokenShownAt == t.accounts[id].tokenShownAt
      && (r.accounts[id].status == Invites.Onboarding ==>
           t.accounts[id].status == Invites.Onboarding && r.invites[h].usedAt == t.invites[h].usedAt)
  {
    var (i, n) := Bumped(t.invites[h], k);
    BumpedAlike(t.invites[h], k);
    EndedEffect(PutInvite(t, h, i), h, "too_many_attempts", now);
  }

  lemma RevealKeepsBooks(s: State, x: Action)
    requires Books(s) && (x.RevealClaim? || x.RevealSettle?)
    ensures Books(Step(s, x))
  {
    var r := Step(s, x);
    if x.RevealClaim? && r != s {
      ClaimInviteEffect(s.t, x.h, x.session, REVEAL_TTL, None, s.now);
      assert ClaimKnown(s.t.invites[x.h], x.h in s.byOpen, s.secret);
      OneInviteKeepsBooks(s, r, x.h);
    } else if x.RevealSettle? && x.session in s.underWay {
      var h := s.underWay[x.session];
      if h in s.t.invites {
        assert ClaimKnown(s.t.invites[h], h in s.byOpen, s.secret);
        OneInviteKeepsBooks(s, r, h);
      }
    }
  }

  lemma ExpireKeepsBooks(s: State)
    requires Books(s)
    ensures Books(Step(s, ExpirePass))
  {
    var r := Step(s, ExpirePass);
    forall h | h in r.t.invites
      ensures ClaimKnown(r.t.invites[h], h in r.byOpen, r.secret) && IdKnown(r.t.invites[h], r.ids)
    {
      assert ClaimKnown(s.t.invites[h], h in s.byOpen, s.secret) && IdKnown(s.t.invites[h], s.ids);
    }
    assert OwnInvite(r.t);
  }

  lemma InvitedKeepsBooks(s: State, x: Action)
    requires Books(s) && x.Invited?
    ensures Books(Step(s, x))
  {
    var r := Step(s, x);
    forall h | h in r.t.invites
      ensures ClaimKnown(r.t.invites[h], h in r.byOpen, r.secret) && IdKnown(r.t.invites[h], r.ids)
    {
      if h in s.t.invites {
        assert ClaimKnown(s.t.invites[h], h in s.byOpen, s.secret) && IdKnown(s.t.invites[h], s.ids);
      }
    }
  }

  /** The writers of accounts only. */
  predicate WritesAccounts(x: Action) {
    x.Tick? || x.ShowToken? || x.AdminDelete? || x.SessionLost? || x.Reissue? || x.DeletionStep? || x.RecordRemoved?
  }

  lemma AccountWriteEffect(s: State, x: Action)
    requires WritesAccounts(x)
    ensures var r := Step(s, x);
      && r.t.invites == s.t.invites && r.byOpen == s.byOpen && r.ids == s.ids
      && r.secret == s.secret && r.underWay == s.underWay
      && r.t.accounts.Keys <= s.t.accounts.Keys
      && (forall a | BeingOnboarded(r.t, a) :: BeingOnboarded(s.t, a))
  {
  }

  lemma StepKeepsBooks(s: State, x: Action)
    requires Books(s)
    ensures Books(Step(s, x))
  {
    match x {
      case OpenLink(h, session, id) => OpenKeepsBooks(s, h, session, id);
      case LoggedIn(_, _, _, _) => SessionKeepsBooks(s, x);
      case Attempted(_, _) => SessionKeepsBooks(s, x);
      case ExpirePass => ExpireKeepsBooks(s);
      case RevealClaim(_, _) => RevealKeepsBooks(s, x);
      case RevealSettle(_) => RevealKeepsBooks(s, x);
      case Invited(_, _, _) => InvitedKeepsBooks(s, x);
      case _ => AccountWriteEffect(s, x);
    }
  }

  // ------------------------------------------------------------------ which step takes a home away

  /** The invite is the home of an account still being onboarded. */
  predicate OwnsOnboarding(t: Tables, h: string) {
    h in t.invites && t.invites[h].account.Some?
    && IsHome(t, h, t.invites[h].account.value) && BeingOnboarded(t, t.invites[h].account.value)
  }

  /** A claim of the code takes over its run-out, unreleased session. */
  predicate TakesOver(s: State, h: string) {
    OwnsOnboarding(s.t, h) && s.t.invites[h].expiresAt > s.now && !Live(s.t.invites[h], s.now)
  }

  /** A reveal claims such a code, or releases a code that is a home by then. */
  predicate TakesHome(s: State, x: Action) {
    match x
    case RevealClaim(h, session) => session !in s.secret && !SessionTaken(s.t, session) && TakesOver(s, h)
    case RevealSettle(session) => session in s.underWay && OwnsOnboarding(s.t, s.underWay[session])
    case _ => false
  }

  /** After a change of one invite, an account keeps a home elsewhere or has one at the changed invite. */
  lemma HomesAfter(t: Tables, r: Tables, h: string)
    requires Attached(t) && OnlyInvite(t, r, h)
    requires forall a | BeingOnboarded(r, a) :: (BeingOnboarded(t, a) && !IsHome(t, h, a)) || IsHome(r, h, a)
    ensures Attached(r)
  {
    forall a | BeingOnboarded(r, a) ensures HasHome(r, a) {
      if !IsHome(r, h, a) {
        var k :| IsHome(t, k, a);
        assert IsHome(r, k, a);
      }
    }
  }

  /** Somebody's only home is gone. */
  lemma HomeGone(t: Tables, r: Tables, h: string)
    requires OwnInvite(t) && OnlyInvite(t, r, h) && OwnsOnboarding(t, h) && r.accounts == t.accounts
    requires h in r.invites && r.invites[h].account == None
    ensures !Attached(r)
  {
    var a := t.invites[h].account.value;
    forall k ensures !IsHome(r, k, a) {
      assert k in t.invites && k != h && k in r.invites ==> t.invites[k] == r.invites[k];
    }
    assert BeingOnboarded(r, a) && !HasHome(r, a);
  }

  /** The release at the end of a reveal orphans an account exactly when its code is a home by then. */
  lemma SettleOrphansExactly(t: Tables, h: string, now: int)
    requires Attached(t) && OwnInvite(t)
    ensures Attached(Settled(t, h, now)) <==> !OwnsOnboarding(t, h)
  {
    var r := Settled(t, h, now);
    if h in t.invites {
      PutIsOnly(t, r, h, r.invites[h]);
      if OwnsOnboarding(t, h) {
        HomeGone(t, r, h);
      } else {
        HomesAfter(t, r, h);
      }
    }
  }

  /** The claim of a reveal orphans an account exactly when it takes its run-out session over. */
  lemma ClaimOrphansExactly(s: State, h: string, session: string)
    requires Good(s) && session !in s.secret && !SessionTaken(s.t, session)
    ensures Attached(Step(s, RevealClaim(h, session)).t) <==> !TakesOver(s, h)
  {
    var r := Step(s, RevealClaim(h, session));
    if r == s {
      assert !TakesOver(s, h);
    } else {
      ClaimInviteEffect(s.t, h, session, REVEAL_TTL, None, s.now);
      PutIsOnly(s.t, r.t, h, r.t.invites[h]);
      if TakesOver(s, h) {
        HomeGone(s.t, r.t, h);
      } else {
        assert ClaimKnown(s.t.invites[h], h in s.byOpen, s.secret);
        HomesAfter(s.t, r.t, h);
      }
    }
  }

  /** What a reveal claimed is nobody's home, until somebody else claims it. */
  lemma ClaimedIsNoHome(s: State, h: string, session: string)
    requires Books(s) && Step(s, RevealClaim(h, session)) != s
    ensures !OwnsOnboarding(Step(s, RevealClaim(h, session)).t, h)
  {
    ClaimInviteEffect(s.t, h, session, REVEAL_TTL, None, s.now);
    assert ClaimKnown(s.t.invites[h], h in s.byOpen, s.secret);
  }

  /** A reveal nothing comes between orphans an account exactly when it takes a run-out session over. */
  lemma RevealOrphansExactly(s: State, h: string, session: string)
    requires Good(s) && session !in s.secret && !SessionTaken(s.t, session)
    ensures Step(Step(s, RevealClaim(h, session)), RevealSettle(session)).t == Reveal(s.t, h, session, s.now)
    ensures Attached(Reveal(s.t, h, session, s.now)) <==> !TakesOver(s, h)
  {
    var m := Step(s, RevealClaim(h, session));
    ClaimOrphansExactly(s, h, session);
    if m != s {
      ClaimedIsNoHome(s, h, session);
      if TakesOver(s, h) {
        StaysOrphaned(s, h, session);
      } else {
        RevealKeepsBooks(s, RevealClaim(h, session));
        SettleOrphansExactly(m.t, h, s.now);
      }
    } else {
      assert session !in s.underWay;
    }
  }

  /** The release that follows does not give the account back its home. */
  lemma StaysOrphaned(s: State, h: string, session: string)
    requires Good(s) && TakesOver(s, h) && Step(s, RevealClaim(h, session)) != s
    ensures !Attached(Settled(Step(s, RevealClaim(h, session)).t, h, s.now))
  {
    var m := Step(s, RevealClaim(h, session));
    ClaimInviteEffect(s.t, h, session, REVEAL_TTL, None, s.now);
    var r := Settled(m.t, h, s.now);
    PutIsOnly(s.t, r, h, r.invites[h]);
    HomeGone(s.t, r, h);
  }

  // ------------------------------------------------------------------ the other steps take none

  /** The claim of open() sends the account of a session it takes over into deletion. */
  lemma OpenClaimKeepsAttached(s: State, h: string, session: string)
    requires Good(s) && MemClaim(s.t, h, session, SESSION_TTL, Some(MAX_CONCURRENT), s.now).1.Claimed?
    ensures var (t1, c) := MemClaim(s.t, h, session, SESSION_TTL, Some(MAX_CONCURRENT), s.now);
      Attached(Abandon(t1, c.abandoned))
  {
    var (t1, c) := MemClaim(s.t, h, session, SESSION_TTL, Some(MAX_CONCURRENT), s.now);
    ClaimInviteEffect(s.t, h, session, SESSION_TTL, Some(MAX_CONCURRENT), s.now);
    assert ClaimKnown(s.t.invites[h], h in s.byOpen, s.secret);
    var m := Abandon(t1, c.abandoned);
    PutIsOnly(s.t, m, h, c.invite);
    forall a | BeingOnboarded(m, a) ensures (BeingOnboarded(s.t, a) && !IsHome(s.t, h, a)) || IsHome(m, h, a) {
      assert BeingOnboarded(s.t, a);
    }
    HomesAfter(s.t, m, h);
  }

  lemma PrepareKeepsAttached(t: Tables, h: string, id: string)
    requires Attached(t) && h in t.invites && t.invites[h].claimedAt.Some? && t.invites[h].usedAt.None?
    ensures Attached(Prepare(t, h, t.invites[h], id))
  {
    var r := Prepare(t, h, t.invites[h], id);
    PrepareEffect(t, h, id);
    if r != t {
      PutIsOnly(t, r, h, r.invites[h]);
      HomesAfter(t, r, h);
    }
  }

  lemma OpenKeepsAttached(s: State, h: string, session: string, id: string)
    requires Good(s)
    ensures Attached(Step(s, OpenLink(h, session, id)).t)
  {
    var (t1, c) := MemClaim(s.t, h, session, SESSION_TTL, Some(MAX_CONCURRENT), s.now);
    if c.Claimed? {
      OpenClaimKeepsAttached(s, h, session);
      ClaimInviteEffect(s.t, h, session, SESSION_TTL, Some(MAX_CONCURRENT), s.now);
      PrepareKeepsAttached(Abandon(t1, c.abandoned), h, id);
    }
  }

  lemma SessionKeepsAttached(s: State, x: Action)
    requires Good(s) && (x.LoggedIn? || x.Attempted?)
    ensures Attached(Step(s, x).t)
  {
    if InSession(s.t, x.h, s.now) {
      if x.LoggedIn? {
        FinishInvite(s.t, x.h, x.tg, x.username, x.putOk, s.now);
        FinishAccounts(s.t, x.h, x.tg, x.username, x.putOk, s.now);
        HomesAfter(s.t, Finish(s.t, x.h, x.tg, x.username, x.putOk, s.now), x.h);
      } else {
        SubmitInvite(s.t, x.h, x.kind, s.now);
        SubmitAccounts(s.t, x.h, x.kind, s.now);
        HomesAfter(s.t, Submit(s.t, x.h, x.kind, s.now), x.h);
      }
    }
  }

  lemma ExpireKeepsAttached(s: State)
    requires Attached(s.t)
    ensures Attached(Step(s, ExpirePass).t)
  {
    var r := Expire(s.t, s.now);
    forall a | BeingOnboarded(r, a) ensures HasHome(r, a) {
      assert BeingOnboarded(s.t, a) && !BoundToExpired(s.t, a, s.now);
      var h :| IsHome(s.t, h, a);
      assert h !in ExpiredCodes(s.t.invites, s.now);
      assert IsHome(r, h, a);
    }
  }

  lemma InvitedKeepsAttached(s: State, x: Action)
    requires Attached(s.t) && x.Invited?
    ensures Attached(Step(s, x).t)
  {
    var r := Step(s, x).t;
    if x.h !in s.t.invites {
      assert OnlyInvite(s.t, r, x.h);
      HomesAfter(s.t, r, x.h);
    }
  }

  lemma AccountWriteKeepsAttached(s: State, x: Action)
    requires Attached(s.t) && WritesAccounts(x)
    ensures Attached(Step(s, x).t)
  {
    var r := Step(s, x);
    AccountWriteEffect(s, x);
    forall a | BeingOnboarded(r.t, a) ensures HasHome(r.t, a) {
      var h :| IsHome(s.t, h, a);
      assert IsHome(r.t, h, a);
    }
  }

  lemma SettleStepExactly(s: State, session: string)
    requires Good(s)
    ensures Attached(Step(s, RevealSettle(session)).t) <==> !TakesHome(s, RevealSettle(session))
  {
    if session in s.underWay {
      SettleOrphansExactly(s.t, s.underWay[session], s.now);
    }
  }

  lemma ClaimStepExactly(s: State, h: string, session: string)
    requires Good(s)
    ensures Attached(Step(s, RevealClaim(h, session)).t) <==> !TakesHome(s, RevealClaim(h, session))
  {
    if session !in s.secret && !SessionTaken(s.t, session) {
      ClaimOrphansExactly(s, h, session);
    }
  }

  /** A step leaves an account without its invite exactly when it is a reveal's and takes a home. */
  lemma StepOrphansExactly(s: State, x: Action)
    requires Good(s)
    ensures Attached(Step(s, x).t) <==> !TakesHome(s, x)
  {
    match x {
      case OpenLink(h, session, id) => OpenKeepsAttached(s, h, session, id);
      case LoggedIn(_, _, _, _) => SessionKeepsAttached(s, x);
      case Attempted(_, _) => SessionKeepsAttached(s, x);
      case ExpirePass => ExpireKeepsAttached(s);
      case RevealClaim(h, session) => ClaimStepExactly(s, h, session);
      case RevealSettle(session) => SettleStepExactly(s, session);
      case Invited(_, _, _) => InvitedKeepsAttached(s, x);
      case _ => AccountWriteKeepsAttached(s, x);
    }
  }

  // ------------------------------------------------------------------ over runs

  /** No step of the run takes a home away. */
  predicate TakesNoHome(s: State, xs: seq<Action>)
    decreases |xs|
  {
    xs == [] || (!TakesHome(s, xs[0]) && TakesNoHome(Step(s, xs[0]), xs[1..]))
  }

  /** In every state of the run every onboarding account has its invite. */
  ghost predicate AttachedThroughout(s: State, xs: seq<Action>)
    decreases |xs|
  {
    Attached(s.t) && (xs == [] || AttachedThroughout(Step(s, xs[0]), xs[1..]))
  }

  lemma GoodAtStart(now: int)
    ensures Good(Start(now))
  {
  }

  lemma StepKeepsGood(s: State, x: Action)
    requires Good(s) && !TakesHome(s, x)
    ensures Good(Step(s, x))
  {
    StepKeepsBooks(s, x);
    StepOrphansExactly(s, x);
  }

  lemma {:induction false} RunKeepsGood(s: State, xs: seq<Action>)
    requires Good(s) && TakesNoHome(s, xs)
    ensures Good(Run(s, xs))
    decreases |xs|
  {
    if xs != [] {
      StepKeepsGood(s, xs[0]);
      RunKeepsGood(Step(s, xs[0]), xs[1..]);
    }
  }

  /** Over every run the accounts stay attached exactly if no reveal takes a home. */
  lemma {:induction false} AttachedExactly(s: State, xs: seq<Action>)
    requires Good(s)
    ensures AttachedThroughout(s, xs) <==> TakesNoHome(s, xs)
    decreases |xs|
  {
    if xs != [] {
      StepKeepsBooks(s, xs[0]);
      StepOrphansExactly(s, xs[0]);
      if !TakesHome(s, xs[0]) {
        AttachedExactly(Step(s, xs[0]), xs[1..]);
      }
    }
  }

  /** The main invariant, over every run from empty tables. */
  lemma EveryOnboardingAccountIsAttached(now: int, xs: seq<Action>, a: string)
    requires TakesNoHome(Start(now), xs) && BeingOnboarded(Run(Start(now), xs).t, a)
    ensures exists h :: IsHome(Run(Start(now), xs).t, h, a)
    ensures forall h, k :: IsHome(Run(Start(now), xs).t, h, a) && IsHome(Run(Start(now), xs).t, k, a) ==> h == k
  {
    GoodAtStart(now);
    RunKeepsGood(Start(now), xs);
    assert HasHome(Run(Start(now), xs).t, a);
  }

  /** Every reveal under way is of a token code. */
  ghost predicate OnTokens(s: State) {
    forall c | c in s.underWay :: s.underWay[c] in s.t.invites && s.t.invites[s.underWay[c]].kind == Token
  }

  /** Token reveals are called on token codes, or on codes there are not. */
  predicate RevealsTokens(s: State, xs: seq<Action>)
    decreases |xs|
  {
    xs == [] ||
    ((xs[0].RevealClaim? && xs[0].h in s.t.invites ==> s.t.invites[xs[0].h].kind == Token)
     && RevealsTokens(Step(s, xs[0]), xs[1..]))
  }

  lemma StepKeepsOnTokens(s: State, x: Action)
    requires OnTokens(s) && (x.RevealClaim? && x.h in s.t.invites ==> s.t.invites[x.h].kind == Token)
    ensures OnTokens(Step(s, x))
  {
    StepInvites(s, x);
    var r := Step(s, x);
    forall c | c in r.underWay ensures r.underWay[c] in r.t.invites && r.t.invites[r.underWay[c]].kind == Token {
      if c in s.underWay && s.underWay[c] == r.underWay[c] {
        assert InviteKept(s.t.invites[s.underWay[c]], r.t.invites[s.underWay[c]], s.now);
      } else {
        assert x.RevealClaim? && r.underWay[c] == x.h && x.h in s.t.invites;
      }
    }
  }

  /** Which is so in every run whose reveals are called on token codes. */
  lemma {:induction false} TokenRevealsTakeNone(s: State, xs: seq<Action>)
    requires OnTokens(s) && RevealsTokens(s, xs)
    ensures TakesNoHome(s, xs)
    decreases |xs|
  {
    if xs != [] {
      StepKeepsOnTokens(s, xs[0]);
      TokenRevealsTakeNone(Step(s, xs[0]), xs[1..]);
    }
  }

  // ------------------------------------------------------------------ how many accounts can be onboarding

  function Onboarded(t: Tables): set<string> {
    set a | a in t.accounts && t.accounts[a].status == Invites.Onboarding
  }

  predicate Bound(t: Tables, hs: set<string>, a: string) {
    exists h :: h in hs && h in t.invites && t.invites[h].account == Some(a)
  }

  /** Each invite is bound to one account at most. */
  lemma {:induction false} NoMoreThanInvites(t: Tables, hs: set<string>, accounts: set<string>)
    requires forall a | a in accounts :: Bound(t, hs, a)
    ensures |accounts| <= |hs|
    decreases |accounts|
  {
    if accounts != {} {
      var a :| a in accounts;
      var h :| h in hs && h in t.invites && t.invites[h].account == Some(a);
      forall b | b in accounts - {a} ensures Bound(t, hs - {h}, b) {
        var k :| k in hs && k in t.invites && t.invites[k].account == Some(b);
        assert k in hs - {h};
      }
      NoMoreThanInvites(t, hs - {h}, accounts - {a});
    }
  }

  /** Right after an expiry pass at most MAX_CONCURRENT accounts are being onboarded. */
  lemma ExpiryBoundsOnboarding(now: int, xs: seq<Action>)
    requires TakesNoHome(Start(now), xs)
    ensures |Onboarded(Step(Run(Start(now), xs), ExpirePass).t)| <= MAX_CONCURRENT
  {
    var s := Run(Start(now), xs);
    var r := Step(s, ExpirePass);
    GoodAtStart(now);
    RunKeepsGood(Start(now), xs);
    assert LiveByOpen(Start(now)) == {};
    LiveSessionsBounded(Start(now), xs);
    LiveShrinks(s, ExpirePass);
    Fewer(LiveByOpen(r), LiveByOpen(s));
    HomesAreLive(s);
    NoMoreThanInvites(r.t, LiveByOpen(r), Onboarded(r.t));
  }

  /** After an expiry pass the home of an account being onboarded is a live session of open(). */
  lemma HomesAreLive(s: State)
    requires Good(s)
    ensures var r := Step(s, ExpirePass); forall a | a in Onboarded(r.t) :: Bound(r.t, LiveByOpen(r), a)
  {
    var r := Step(s, ExpirePass);
    ExpireKeepsAttached(s);
    forall a | a in Onboarded(r.t) ensures Bound(r.t, LiveByOpen(r), a) {
      assert BeingOnboarded(r.t, a);
      var h :| IsHome(r.t, h, a);
      assert ClaimKnown(s.t.invites[h], h in s.byOpen, s.secret);
      assert h in LiveByOpen(r);
    }
  }

  // ------------------------------------------------------------------ both ways to lose a home are reachable

  /** An open() of a single invite that no session lives on. */
  lemma OpensFirst(s: State, h: string, session: string, id: string)
    requires s.t.invites.Keys == {h} && s.t.invites[h].kind == New && s.t.invites[h].usedAt.None?
    requires !Live(s.t.invites[h], s.now) && s.t.invites[h].expiresAt > s.now && s.t.accounts == map[]
    requires id !in s.ids && session !in s.secret && s.t.invites[h].account.None?
    ensures var r := Step(s, OpenLink(h, session, id));
      && OwnsOnboarding(r.t, h) && r.t.invites[h].account == Some(id)
      && r.t.invites[h].expiresAt == s.t.invites[h].expiresAt
      && r.t.invites[h].sessionExpiresAt == Some(s.now + SESSION_TTL)
      && r.t.invites[h].session == Some(session) && r.t.invites.Keys == {h}
      && r.now == s.now && r.secret == s.secret && r.underWay == s.underWay
  {
    assert LiveCodes(s.t.invites, s.now) == {};
    var (t1, c) := MemClaim(s.t, h, session, SESSION_TTL, Some(MAX_CONCURRENT), s.now);
    ClaimInviteEffect(s.t, h, session, SESSION_TTL, Some(MAX_CONCURRENT), s.now);
    assert Abandon(t1, c.abandoned) == t1;
    PrepareEffect(t1, h, id);
  }

  /** An invite opened, left until its session ran out, and then tried as a token link. */
  lemma RevealCanOrphan(h: string, session: string, id: string, other: string)
    requires other != session
    ensures var s := Run(Start(0), [Invited(h, New, None), OpenLink(h, session, id), Tick(SESSION_TTL)]);
      TakesOver(s, h) && !Attached(Step(s, RevealClaim(h, other)).t)
  {
    var xs := [Invited(h, New, None), OpenLink(h, session, id), Tick(SESSION_TTL)];
    var s1 := Step(Start(0), xs[0]);
    assert s1.t.invites == map[h := FreshInvite(New, None, INVITE_TTL)];
    OpensFirst(s1, h, session, id);
    var s2 := Step(s1, xs[1]);
    var s := Step(s2, xs[2]);
    assert Run(Start(0), xs) == s by {
      assert xs[1..][1..][1..] == [];
      assert Run(Start(0), xs) == Run(s1, xs[1..]) == Run(s2, xs[1..][1..]);
    }
    GoodAtStart(0);
    StepKeepsGood(Start(0), xs[0]);
    StepKeepsGood(s1, xs[1]);
    StepKeepsGood(s2, xs[2]);
    ClaimOrphansExactly(s, h, other);
  }

  /**
   * A "new" code tried as a token link by a reveal that is slow to release it: its minute runs out, an
   * open() claims the code and makes an account, and then the release comes. No run-out session of an
   * open() is taken over.
   */
  lemma SlowRevealOrphans(h: string, session: string, id: string, other: string)
    requires other != session
    ensures var s0 := Step(Start(0), Invited(h, New, None));
      var s := Step(Step(Step(s0, RevealClaim(h, other)), Tick(REVEAL_TTL)), OpenLink(h, session, id));
      && !TakesOver(s0, h) && BeingOnboarded(s.t, id)
      && TakesHome(s, RevealSettle(other)) && !Attached(Step(s, RevealSettle(other)).t)
  {
    var s0 := Step(Start(0), Invited(h, New, None));
    GoodAtStart(0);
    StepKeepsGood(Start(0), Invited(h, New, None));
    assert s0.t.invites == map[h := FreshInvite(New, None, INVITE_TTL)];
    ClaimedAndIdle(s0, h, other);
    OpenedThenReleased(Step(Step(s0, RevealClaim(h, other)), Tick(REVEAL_TTL)), h, session, id, other);
  }

  /** The code's claim has run out and nothing has been opened. */
  predicate ClaimRanOut(s: State, h: string, other: string) {
    && s.t.invites.Keys == {h} && s.t.accounts == map[] && s.underWay == map[other := h] && s.secret == {other}
    && s.t.invites[h].kind == New && s.t.invites[h].usedAt.None? && s.t.invites[h].account.None?
    && !Live(s.t.invites[h], s.now) && s.t.invites[h].expiresAt > s.now
  }

  lemma ClaimedAndIdle(s0: State, h: string, other: string)
    requires Good(s0) && s0.t == Tables(map[h := FreshInvite(New, None, INVITE_TTL)], map[]) && s0.now == 0
    requires s0.secret == {} && s0.underWay == map[]
    ensures var s := Step(Step(s0, RevealClaim(h, other)), Tick(REVEAL_TTL));
      Good(s) && ClaimRanOut(s, h, other) && s.ids == s0.ids
  {
    ClaimInviteEffect(s0.t, h, other, REVEAL_TTL, None, 0);
    StepKeepsGood(s0, RevealClaim(h, other));
    StepKeepsGood(Step(s0, RevealClaim(h, other)), Tick(REVEAL_TTL));
  }

  lemma OpenedThenReleased(s: State, h: string, session: string, id: string, other: string)
    requires Good(s) && ClaimRanOut(s, h, other) && id !in s.ids && other != session
    ensures var r := Step(s, OpenLink(h, session, id));
      && BeingOnboarded(r.t, id)
      && TakesHome(r, RevealSettle(other)) && !Attached(Step(r, RevealSettle(other)).t)
  {
    OpensFirst(s, h, session, id);
    StepKeepsGood(s, OpenLink(h, session, id));
    SettleStepExactly(Step(s, OpenLink(h, session, id)), other);
  }

  // ------------------------------------------------------------------ active accounts and shown tokens

  /** No Telegram user has two active accounts. */
  ghost predicate TelegramUnique(t: Tables) {
    forall a, b | a in t.accounts && b in t.accounts && a != b
      && t.accounts[a].status == Active && t.accounts[b].status == Active
      && t.accounts[a].telegram.Some? :: t.accounts[a].telegram != t.accounts[b].telegram
  }

  /** finish() makes an account active only as the only one of its user, and otherwise leaves it its user. */
  lemma FinishActivates(t: Tables, h: string, tg: string, username: Option<string>, putOk: bool, now: int)
    requires InSession(t, h, now)
    ensures var r := Finish(t, h, tg, username, putOk, now); var id := t.invites[h].account.value;
      && id in r.accounts
      && (r.accounts[id].status == Active ==>
           || (t.accounts[id].status == Active && r.accounts[id].telegram == t.accounts[id].telegram)
           || (r.accounts[id].telegram == Some(tg) && !ActiveElsewhere(t, tg, id)))
  {
  }

  lemma FinishKeepsUnique(t: Tables, h: string, tg: string, username: Option<string>, putOk: bool, now: int)
    requires TelegramUnique(t) && InSession(t, h, now)
    ensures TelegramUnique(Finish(t, h, tg, username, putOk, now))
  {
    FinishActivates(t, h, tg, username, putOk, now);
    FinishAccounts(t, h, tg, username, putOk, now);
  }

  /** open() leaves each account as it was or in deletion, and adds none but its own. */
  lemma OpenAccounts(t: Tables, h: string, session: string, id: string, now: int, a: string)
    requires a in Open(t, h, session, id, now).accounts
    ensures var r := Open(t, h, session, id, now);
      || (a !in t.accounts && a == id && r.accounts[a] == NewAccount())
      || (a in t.accounts && (r.accounts[a] == t.accounts[a] || r.accounts[a] == t.accounts[a].(status := Deleting)))
  {
    var (t1, c) := MemClaim(t, h, session, SESSION_TTL, Some(MAX_CONCURRENT), now);
    if c.Claimed? {
      ClaimInviteEffect(t, h, session, SESSION_TTL, Some(MAX_CONCURRENT), now);
      PrepareEffect(Abandon(t1, c.abandoned), h, id);
    }
  }

  lemma OtherStepsActivateNobody(s: State, x: Action, a: string)
    requires !x.LoggedIn? && a in Step(s, x).t.accounts && Step(s, x).t.accounts[a].status == Active
    ensures a in s.t.accounts && s.t.accounts[a].status == Active
      && Step(s, x).t.accounts[a].telegram == s.t.accounts[a].telegram
  {
    if x.OpenLink? && Step(s, x) != s {
      OpenAccounts(s.t, x.h, x.session, x.id, s.now, a);
    }
  }

  lemma {:induction false} ActiveTelegramUnique(s: State, xs: seq<Action>)
    requires TelegramUnique(s.t)
    ensures TelegramUnique(Run(s, xs).t)
    decreases |xs|
  {
    if xs != [] {
      var x := xs[0];
      var r := Step(s, x);
      if x.LoggedIn? {
        if InSession(s.t, x.h, s.now) { FinishKeepsUnique(s.t, x.h, x.tg, x.username, x.putOk, s.now); }
      } else {
        forall a | a in r.t.accounts && r.t.accounts[a].status == Active
          ensures a in s.t.accounts && s.t.accounts[a].status == Active
            && r.t.accounts[a].telegram == s.t.accounts[a].telegram
        {
          OtherStepsActivateNobody(s, x, a);
        }
      }
      ActiveTelegramUnique(r, xs[1..]);
    }
  }

  predicate ShownOk(s: State, a: string) {
    a in s.ids && (a in s.t.accounts ==> s.t.accounts[a].tokenShownAt.Some?)
  }

  /** Accounts whose token was shown are known, shown once, and marked while they exist. */
  ghost predicate ShowsOk(s: State) {
    && (forall a | a in s.t.accounts :: a in s.ids)
    && (forall i | 0 <= i < |s.shows| :: ShownOk(s, s.shows[i]))
    && (forall i, j | 0 <= i < j < |s.shows| :: s.shows[i] != s.shows[j])
  }

  lemma SessionMarksStay(s: State, x: Action, a: string)
    requires (x.LoggedIn? || x.Attempted?) && a in Step(s, x).t.accounts
    ensures a in s.t.accounts && Step(s, x).t.accounts[a].tokenShownAt == s.t.accounts[a].tokenShownAt
  {
    if InSession(s.t, x.h, s.now) {
      if x.LoggedIn? {
        FinishAccounts(s.t, x.h, x.tg, x.username, x.putOk, s.now);
      } else {
        SubmitAccounts(s.t, x.h, x.kind, s.now);
      }
    }
  }

  lemma MarksStay(s: State, x: Action, a: string)
    requires a in Step(s, x).t.accounts
    ensures a in s.t.accounts || (x.OpenLink? && a == x.id && x.id !in s.ids && a in Step(s, x).ids)
    ensures a in s.t.accounts && s.t.accounts[a].tokenShownAt.Some? ==> Step(s, x).t.accounts[a].tokenShownAt.Some?
  {
    if x.LoggedIn? || x.Attempted? {
      SessionMarksStay(s, x, a);
    } else if x.OpenLink? && Step(s, x) != s {
      OpenAccounts(s.t, x.h, x.session, x.id, s.now, a);
    }
  }

  lemma StepKeepsShows(s: State, x: Action)
    requires ShowsOk(s)
    ensures ShowsOk(Step(s, x))
  {
    var r := Step(s, x);
    forall a | a in r.t.accounts ensures a in r.ids {
      MarksStay(s, x, a);
    }
    forall i | 0 <= i < |r.shows| ensures ShownOk(r, r.shows[i]) {
      assert i < |s.shows| ==> ShownOk(s, s.shows[i]);
      if r.shows[i] in r.t.accounts {
        MarksStay(s, x, r.shows[i]);
      }
    }
  }

  /** Over every run no account's token is shown twice. */
  lemma {:induction false} TokenShownOnce(s: State, xs: seq<Action>)
    requires ShowsOk(s)
    ensures ShowsOk(Run(s, xs))
    decreases |xs|
  {
    if xs != [] {
      StepKeepsShows(s, xs[0]);
      TokenShownOnce(Step(s, xs[0]), xs[1..]);
    }
  }
}
