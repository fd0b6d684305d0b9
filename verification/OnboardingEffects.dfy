/**
 * What the onboarding handlers (control-plane/src/onboarding.ts, admin_server.ts) do to the tables, row by
 * row, told from the rows before and the answer alone.
 */
module OnboardingEffects {
  import opened Options
  import opened Invites
  import opened Onboarding

  datatype Page = Redirect | Refuse(status: int)

  ghost predicate OtherInvitesKept(t: Tables, r: Tables, h: string) {
    && (forall k | k in t.invites && k != h :: k in r.invites && r.invites[k] == t.invites[k])
    && (forall k | k in r.invites && k != h :: k in t.invites)
  }

  ghost predicate OtherAccountsKept(t: Tables, r: Tables, a: string) {
    && (forall b | b in t.accounts && b != a :: b in r.accounts && r.accounts[b] == t.accounts[b])
    && (forall b | b in r.accounts && b != a :: b in t.accounts)
  }

  /** The invite j is i unclaimed again: its kind, deadline and use stay, and a "new" one has no account. */
  predicate Unclaimed(i: Invite, j: Invite) {
    && j.kind == i.kind && j.expiresAt == i.expiresAt && j.usedAt == i.usedAt
    && j.claimedAt == None && j.session == None && j.sessionExpiresAt == None && j.outcome == None
    && j.codeAttempts == 0 && j.passwordAttempts == 0 && j.phoneAttempts == 0
    && (i.kind == New ==> j.account == None) && (i.kind != New ==> j.account == i.account)
  }

  /** The account as it was, or put into deletion if nobody had logged in. */
  predicate GivenUp(a: Account, b: Account) {
    && (a.status == Invites.Onboarding ==> b == a.(status := Deleting))
    && (a.status != Invites.Onboarding ==> b == a)
  }

  // ------------------------------------------------------------------ finish()

  /** Another account is active as this Telegram user. */
  predicate LoggedInElsewhere(t: Tables, tg: string, a: string) {
    exists b :: b in t.accounts && b != a && t.accounts[b].status == Active && t.accounts[b].telegram == Some(tg)
  }

  /** The ending of a relogin: the same user is active again, another user is turned away. */
  predicate ReloginEnds(i: Invite, a: Account, elsewhere: bool, tg: string, username: Option<string>, now: int,
      j: Invite, b: Account)
  {
    && (a.telegram != Some(tg) ==>
         && j == i.(outcome := Some("wrong_account"), usedAt := Some(now))
         && b == a.(secretRev := a.secretRev + 1))
    && (a.telegram == Some(tg) && !elsewhere ==>
         j == i.(usedAt := Some(now)) && b == a.(status := Active, username := username))
    && (a.telegram == Some(tg) && elsewhere ==> j == i && b == a)  // the store refuses the second active account
  }

  /** The ending of a first login: active as the user, or a duplicate that goes into deletion. */
  predicate LoginEnds(i: Invite, a: Account, elsewhere: bool, tg: string, username: Option<string>, putOk: bool,
      now: int, j: Invite, b: Account)
  {
    && (elsewhere ==>
         && j == i.(outcome := Some("duplicate"), usedAt := Some(now))
         && b == a.(status := Deleting, deleteStep := Some("logged_out")))
    && (!elsewhere && putOk ==>
         && j == i.(usedAt := Some(now))
         && b == a.(status := Active, telegram := Some(tg), username := username, activatedAt := Some(now)))
    && (!elsewhere && !putOk ==> j == i && b == a)
  }

  ghost predicate FinishedAs(t: Tables, h: string, tg: string, username: Option<string>, putOk: bool, now: int,
      r: Tables)
    requires InSession(t, h, now)
  {
    var i := t.invites[h];
    var id := i.account.value;
    var a := t.accounts[id];
    && OtherInvitesKept(t, r, h) && OtherAccountsKept(t, r, id) && h in r.invites && id in r.accounts
    && (i.kind == Relogin ==>
         ReloginEnds(i, a, LoggedInElsewhere(t, tg, id), tg, username, now, r.invites[h], r.accounts[id]))
    && (i.kind != Relogin ==>
         LoginEnds(i, a, LoggedInElsewhere(t, tg, id), tg, username, putOk, now, r.invites[h], r.accounts[id]))
  }

  lemma FinishReloginExactly(t: Tables, h: string, tg: string, username: Option<string>, putOk: bool, now: int)
    requires InSession(t, h, now) && t.invites[h].kind == Relogin
    ensures FinishedAs(t, h, tg, username, putOk, now, Finish(t, h, tg, username, putOk, now))
  {
    EndedEffect(t, h, "wrong_account", now);
  }

  lemma FinishLoginExactly(t: Tables, h: string, tg: string, username: Option<string>, putOk: bool, now: int)
    requires InSession(t, h, now) && t.invites[h].kind != Relogin
    ensures FinishedAs(t, h, tg, username, putOk, now, Finish(t, h, tg, username, putOk, now))
  {
    EndedEffect(t, h, "duplicate", now);
  }

  /** finish() ends the session as told, for every user, invite and account. */
  lemma FinishExactly(t: Tables, h: string, tg: string, username: Option<string>, putOk: bool, now: int)
    requires InSession(t, h, now)
    ensures FinishedAs(t, h, tg, username, putOk, now, Finish(t, h, tg, username, putOk, now))
  {
    if t.invites[h].kind == Relogin {
      FinishReloginExactly(t, h, tg, username, putOk, now);
    } else {
      FinishLoginExactly(t, h, tg, username, putOk, now);
    }
  }

  // ------------------------------------------------------------------ submit()

  function AttemptsMade(i: Invite, k: Attempt): nat {
    match k
    case Code => i.codeAttempts
    case Password => i.passwordAttempts
    case Phone => i.phoneAttempts
  }

  /** Five codes, five passwords, three phone numbers. */
  function Allowed(k: Attempt): nat {
    match k
    case Code => 5
    case Password => 5
    case Phone => 3
  }

  /** The attempt is counted in its own counter, and nothing but attempts, use and outcome differs. */
  predicate Counted(i: Invite, k: Attempt, j: Invite) {
    && j.codeAttempts == i.codeAttempts + (if k == Code then 1 else 0)
    && j.passwordAttempts == i.passwordAttempts + (if k == Password then 1 else 0)
    && j.phoneAttempts == i.phoneAttempts + (if k == Phone then 1 else 0)
    && j.kind == i.kind && j.account == i.account && j.expiresAt == i.expiresAt
    && j.claimedAt == i.claimedAt && j.session == i.session && j.sessionExpiresAt == i.sessionExpiresAt
  }

  ghost predicate SubmittedAs(t: Tables, h: string, k: Attempt, now: int, r: Tables, callWorker: bool)
    requires InSession(t, h, now)
  {
    var i := t.invites[h];
    var id := i.account.value;
    && (callWorker <==> AttemptsMade(i, k) < Allowed(k))
    && OtherInvitesKept(t, r, h) && OtherAccountsKept(t, r, id) && h in r.invites && id in r.accounts
    && Counted(i, k, r.invites[h])
    && (callWorker ==>
         r.invites[h].usedAt == i.usedAt && r.invites[h].outcome == i.outcome && r.accounts[id] == t.accounts[id])
    && (!callWorker ==>
         && r.invites[h].usedAt == Some(now) && r.invites[h].outcome == Some("too_many_attempts")
         && GivenUp(t.accounts[id], r.accounts[id]))
  }

  lemma BumpedIs(i: Invite, k: Attempt)
    ensures Counted(i, k, Bumped(i, k).0) && Bumped(i, k).1 == AttemptsMade(i, k) + 1
    ensures Bumped(i, k).0.usedAt == i.usedAt && Bumped(i, k).0.outcome == i.outcome
  {
  }

  lemma TooManyEnds(t: Tables, h: string, k: Attempt, now: int)
    requires InSession(t, h, now) && AttemptsMade(t.invites[h], k) >= Allowed(k)
    ensures var i := t.invites[h]; var j := Bumped(i, k).0.(outcome := Some("too_many_attempts"), usedAt := Some(now));
      Submit(t, h, k, now) == Abandon(t.(invites := t.invites[h := j]), i.account)
  {
    var b := Bumped(t.invites[h], k).0;
    BumpedIs(t.invites[h], k);
    EndedEffect(PutInvite(t, h, b), h, "too_many_attempts", now);
    var j := b.(outcome := Some("too_many_attempts"), usedAt := Some(now));
    assert t.invites[h := b][h := j] == t.invites[h := j];
  }

  /** submit() counts the attempt, and one too many ends the session. */
  lemma SubmitExactly(t: Tables, h: string, k: Attempt, now: int)
    requires InSession(t, h, now)
    ensures SubmittedAs(t, h, k, now, Submit(t, h, k, now), AttemptsMade(t.invites[h], k) < Allowed(k))
  {
    var i := t.invites[h];
    BumpedIs(i, k);
    if AttemptsMade(i, k) >= Allowed(k) {
      TooManyEnds(t, h, k, now);
      var j := Bumped(i, k).0.(outcome := Some("too_many_attempts"), usedAt := Some(now));
      AbandonExactly(t.(invites := t.invites[h := j]), i.account, i);
    } else {
      assert Submit(t, h, k, now) == t.(invites := t.invites[h := Bumped(i, k).0]);
    }
  }

  // ------------------------------------------------------------------ open()

  /** The invite that open() leaves of the one it claimed. */
  predicate PreparedAs(i: Invite, usable: bool, free: bool, id: string, j: Invite) {
    && (i.kind == Token ==> j == i)
    && (i.kind == New && i.account.None? && free ==> j == i.(account := Some(id)))
    && (i.kind == New && (i.account.Some? || !free) ==> j == i)
    && (i.kind == Relogin && usable ==> j == i)
    && (i.kind == Relogin && !usable ==> Unclaimed(i, j))
  }

  predicate FreshAccount(a: Account) {
    && a.status == Invites.Onboarding && a.telegram == None && a.username == None && a.activatedAt == None
    && a.tokenShownAt == None && a.deleteStep == None && a.secretRev == 1
  }

  /** The invite is for the relogin of an account that has lost its session. */
  predicate Reloginable(t: Tables, i: Invite) {
    i.account.Some? && i.account.value in t.accounts && t.accounts[i.account.value].status == NeedsRelogin
  }

  /** What open() answers once it has claimed the invite. */
  predicate OpenAnswers(i: Invite, usable: bool, page: Page) {
    && (i.kind == Token ==> page == Refuse(404))
    && (i.kind == New ==> page == Redirect)
    && (i.kind == Relogin ==> page == if usable then Redirect else Refuse(409))
  }

  predicate ClaimAnswers(reason: Reason, page: Page) {
    && (reason == InUse || reason == Used ==> page == Refuse(409))
    && (reason == Busy ==> page == Refuse(503))
    && (reason == NotFound || reason == Invites.Expired ==> page == Refuse(404))
  }

  /** The accounts after open(): the abandoned one given up, and a new one if the invite is for one. */
  ghost predicate AccountsOpened(t: Tables, c: ClaimResult, id: string, r: Tables)
    requires c.Claimed?
  {
    && (forall a | a in t.accounts :: a in r.accounts &&
         if Some(a) == c.abandoned then GivenUp(t.accounts[a], r.accounts[a]) else r.accounts[a] == t.accounts[a])
    && (forall a | a in r.accounts && a !in t.accounts ::
         a == id && c.invite.kind == New && c.invite.account.None? && FreshAccount(r.accounts[a]))
    && (c.invite.kind == New && c.invite.account.None? ==> id in r.accounts)
  }

  ghost predicate OpenedAs(t: Tables, h: string, session: string, id: string, now: int, r: Tables, page: Page) {
    var c := MemClaim(t, h, session, SESSION_TTL, Some(MAX_CONCURRENT), now).1;
    match c
    case Refused(reason) => r == t && ClaimAnswers(reason, page)
    case Claimed(i, abandoned) =>
      && OtherInvitesKept(t, r, h) && h in r.invites && AccountsOpened(t, c, id, r)
      && PreparedAs(i, Reloginable(t, i), id !in t.accounts, id, r.invites[h])
      && OpenAnswers(i, Reloginable(t, i), page)
  }

  /** The page that goes with what open() did. */
  function PageFor(t: Tables, h: string, session: string, now: int): Page {
    match MemClaim(t, h, session, SESSION_TTL, Some(MAX_CONCURRENT), now).1
    case Refused(reason) =>
      if reason == InUse || reason == Used then Refuse(409) else if reason == Busy then Refuse(503) else Refuse(404)
    case Claimed(i, _) =>
      if i.kind == Token then Refuse(404)
      else if i.kind == New || Reloginable(t, i) then Redirect else Refuse(409)
  }

  lemma AbandonExactly(t: Tables, a: Option<string>, i: Invite)
    ensures var r := Abandon(t, a);
      && r.invites == t.invites && r.accounts.Keys == t.accounts.Keys
      && (forall b | b in t.accounts ::
           if Some(b) == a then GivenUp(t.accounts[b], r.accounts[b]) else r.accounts[b] == t.accounts[b])
      && Reloginable(r, i) == Reloginable(t, i)
  {
  }

  /** Preparing the claimed invite: its own row, and one new account at most. */
  lemma PrepareExactly(t: Tables, h: string, i: Invite, id: string)
    requires h in t.invites && t.invites[h] == i
    ensures var r := Prepare(t, h, i, id);
      && OtherInvitesKept(t, r, h) && h in r.invites
      && PreparedAs(i, Reloginable(t, i), id !in t.accounts, id, r.invites[h])
      && (forall a | a in t.accounts :: a in r.accounts && r.accounts[a] == t.accounts[a])
      && (forall a | a in r.accounts && a !in t.accounts ::
           a == id && i.kind == New && i.account.None? && FreshAccount(r.accounts[a]))
      && (i.kind == New && i.account.None? ==> id in r.accounts)
  {
  }

  /** Claiming touches no row but the invite's. */
  lemma ClaimTouches(t: Tables, h: string, session: string, now: int)
    ensures var (m, c) := MemClaim(t, h, session, SESSION_TTL, Some(MAX_CONCURRENT), now);
      && (c.Refused? ==> m == t)
      && (c.Claimed? ==>
           OtherInvitesKept(t, m, h) && h in m.invites && m.invites[h] == c.invite && m.accounts == t.accounts)
  {
    if MemClaim(t, h, session, SESSION_TTL, Some(MAX_CONCURRENT), now).1.Claimed? {
      ClaimInviteEffect(t, h, session, SESSION_TTL, Some(MAX_CONCURRENT), now);
    }
  }

  /** open() claims the invite and prepares its session as told. */
  lemma OpenExactly(t: Tables, h: string, session: string, id: string, now: int)
    ensures OpenedAs(t, h, session, id, now, Open(t, h, session, id, now), PageFor(t, h, session, now))
  {
    var (m, c) := MemClaim(t, h, session, SESSION_TTL, Some(MAX_CONCURRENT), now);
    ClaimTouches(t, h, session, now);
    if c.Claimed? {
      AbandonExactly(m, c.abandoned, c.invite);
      PrepareExactly(Abandon(m, c.abandoned), h, c.invite, id);
      assert Reloginable(m, c.invite) == Reloginable(t, c.invite);
    }
  }

  // ------------------------------------------------------------------ token reveals and expiry

  ghost predicate RevealedAs(t: Tables, h: string, session: string, now: int, r: Tables, account: Option<string>) {
    var c := MemClaim(t, h, session, REVEAL_TTL, None, now).1;
    && r.accounts == t.accounts
    && match c
       case Refused(_) => r == t && account == None
       case Claimed(i, _) =>
         && OtherInvitesKept(t, r, h) && h in r.invites
         && (i.kind == Token && i.account.Some? ==> r.invites[h] == i.(usedAt := Some(now)) && account == i.account)
         && (i.kind != Token || i.account.None? ==> Unclaimed(i, r.invites[h]) && account == None)
  }

  /** A whole reveal uses a token code up, releases any other code, and changes nothing when refused. */
  lemma RevealExactly(t: Tables, h: string, session: string, now: int)
    ensures var c := MemClaim(t, h, session, REVEAL_TTL, None, now).1;
      RevealedAs(t, h, session, now, Reveal(t, h, session, now),
        if c.Claimed? && c.invite.kind == Token then c.invite.account else None)
  {
    if MemClaim(t, h, session, REVEAL_TTL, None, now).1.Claimed? {
      ClaimInviteEffect(t, h, session, REVEAL_TTL, None, now);
    }
  }

  /** The session of the claimed, unused invite has run out. */
  predicate RanOut(i: Invite, now: int) {
    i.claimedAt.Some? && i.usedAt.None? && i.sessionExpiresAt.Some? && now >= i.sessionExpiresAt.value
  }

  predicate LosesAccount(t: Tables, h: string, a: string, now: int) {
    h in t.invites && RanOut(t.invites[h], now) && t.invites[h].kind == New && t.invites[h].account == Some(a)
  }

  /** Exactly the run-out sessions are released, and exactly their new accounts nobody logged into are given up. */
  ghost predicate ExpiredAs(t: Tables, now: int, r: Tables) {
    && r.invites.Keys == t.invites.Keys && r.accounts.Keys == t.accounts.Keys
    && (forall h | h in t.invites ::
         if RanOut(t.invites[h], now) then Unclaimed(t.invites[h], r.invites[h]) else r.invites[h] == t.invites[h])
    && (forall a | a in t.accounts ::
         if exists h :: LosesAccount(t, h, a, now) then GivenUp(t.accounts[a], r.accounts[a])
         else r.accounts[a] == t.accounts[a])
  }

  lemma ExpireExactly(t: Tables, now: int)
    ensures ExpiredAs(t, now, Expire(t, now))
  {
    forall h ensures h in ExpiredCodes(t.invites, now) <==> h in t.invites && RanOut(t.invites[h], now) {}
    forall a ensures BoundToExpired(t, a, now) <==> exists h :: LosesAccount(t, h, a, now) {
      if BoundToExpired(t, a, now) {
        var h :| h in ExpiredCodes(t.invites, now) && t.invites[h].kind == New && t.invites[h].account == Some(a);
        assert LosesAccount(t, h, a, now);
      }
      if h :| LosesAccount(t, h, a, now) {
        assert h in ExpiredCodes(t.invites, now);
      }
    }
  }
  // ------------------------------------------------------------------ whole sessions

  /** A "new" invite nobody has claimed yet can be opened: there is room, and the ids are new. */
  ghost predicate Openable(s: State, h: string, session: string, id: string) {
    && h in s.t.invites && s.now < s.t.invites[h].expiresAt
    && s.t.invites[h].kind == New && s.t.invites[h].account.None? && s.t.invites[h].claimedAt.None?
    && s.t.invites[h].usedAt.None? && s.t.invites[h].outcome.None?
    && |LiveCodes(s.t.invites, s.now)| < 3
    && session !in s.secret && id !in s.ids && id !in s.t.accounts
  }

  /** The session is open, and its new account waits for a login. */
  predicate SessionOpen(s: State, r: State, h: string, session: string, id: string) {
    && r.now == s.now && InSession(r.t, h, r.now) && r.t.invites[h].account == Some(id)
    && r.t.invites[h].kind == New && r.t.invites[h].session == Some(session) && r.t.invites[h].outcome.None?
    && r.t.invites[h].usedAt.None? && r.t.invites[h].claimedAt.Some?
    && r.t.invites[h].sessionExpiresAt == Some(s.now + 900_000)
    && FreshAccount(r.t.accounts[id]) && r.shows == s.shows
    && (forall a | a in r.t.accounts && a != id :: a in s.t.accounts && r.t.accounts[a] == s.t.accounts[a])
  }

  lemma OpensASession(s: State, h: string, session: string, id: string)
    requires Openable(s, h, session, id)
    ensures SessionOpen(s, Step(s, OpenLink(h, session, id)), h, session, id)
  {
    var c := MemClaim(s.t, h, session, SESSION_TTL, Some(MAX_CONCURRENT), s.now).1;
    OpenExactly(s.t, h, session, id, s.now);
    ClaimInviteEffect(s.t, h, session, SESSION_TTL, Some(MAX_CONCURRENT), s.now);
    assert c.Claimed? && c.abandoned == None;
  }

  lemma LogsIn(s: State, h: string, id: string, tg: string, username: Option<string>)
    requires InSession(s.t, h, s.now) && s.t.invites[h].outcome.None? && s.t.invites[h].kind == New
    requires s.t.invites[h].account == Some(id) && !LoggedInElsewhere(s.t, tg, id)
    ensures var r := Step(s, LoggedIn(h, tg, username, true));
      && r.now == s.now && r.shows == s.shows && h in r.t.invites && id in r.t.accounts
      && r.t.invites[h] == s.t.invites[h].(usedAt := Some(s.now))
      && r.t.accounts[id].status == Active && r.t.accounts[id].telegram == Some(tg)
      && r.t.accounts[id].tokenShownAt == s.t.accounts[id].tokenShownAt
  {
    FinishExactly(s.t, h, tg, username, true, s.now);
  }

  /**
   * In every state: somebody who opens a "new" invite and logs in as a user nobody is active as has an active
   * account of that user, the invite is used up, and the finish page shows the token once.
   */
  lemma InvitedGetsIn(s: State, h: string, session: string, id: string, tg: string, username: Option<string>)
    requires Openable(s, h, session, id) && !LoggedInElsewhere(s.t, tg, id)
    ensures var i := Step(Step(s, OpenLink(h, session, id)), LoggedIn(h, tg, username, true));
      && id in i.t.accounts && i.t.accounts[id].status == Active && i.t.accounts[id].telegram == Some(tg)
      && h in i.t.invites && i.t.invites[h].usedAt == Some(s.now)
      && Step(i, ShowToken(h)).shows == s.shows + [id]
      && Step(Step(i, ShowToken(h)), ShowToken(h)).shows == s.shows + [id]
  {
    var o := Step(s, OpenLink(h, session, id));
    OpensASession(s, h, session, id);
    assert !LoggedInElsewhere(o.t, tg, id);
    LogsIn(o, h, id, tg, username);
  }

  /** In every state: a session nobody logs into gives its invite back and its account up when it has run out. */
  lemma IdleSessionExpires(s: State, h: string, session: string, id: string)
    requires Openable(s, h, session, id)
    ensures var o := Step(s, OpenLink(h, session, id)); var r := Step(Step(o, Tick(s.now + 900_000)), ExpirePass);
      && h in o.t.invites && h in r.t.invites && Unclaimed(o.t.invites[h], r.t.invites[h])
      && id in r.t.accounts && r.t.accounts[id].status == Deleting
  {
    var o := Step(s, OpenLink(h, session, id));
    OpensASession(s, h, session, id);
    var late := Step(o, Tick(s.now + 900_000));
    ExpireExactly(late.t, late.now);
    assert LosesAccount(late.t, h, id, late.now);
  }
}
