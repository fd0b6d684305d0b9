/**
 * Onboarding over the two tables (control-plane/src/onboarding.ts), with everything else that writes
 * them: token reveals, the admin API, the poll of active accounts and the deletion pipeline. Each
 * handler body is one step, except the token reveal, whose claim and outcome are two.
 */
module Onboarding {
  import opened Options
  import opened Invites

  const SESSION_TTL := 900_000
  const INVITE_TTL := 86_400_000
  const REVEAL_TTL := 60_000
  const MAX_CONCURRENT: nat := 3
  const MAX_ATTEMPTS: nat := 5
  const MAX_PHONE_ATTEMPTS: nat := 3

  // ------------------------------------------------------------------ the handlers, on values

  function PutInvite(t: Tables, h: string, i: Invite): Tables {
    t.(invites := t.invites[h := i])
  }

  function PutAccount(t: Tables, a: string, row: Account): Tables {
    t.(accounts := t.accounts[a := row])
  }

  function Release(t: Tables, h: string): Tables {
    if h in t.invites then PutInvite(t, h, ResetInvite(t.invites[h])) else t
  }

  function MarkUsed(t: Tables, h: string, now: int): Tables {
    if h in t.invites then PutInvite(t, h, t.invites[h].(usedAt := Some(now))) else t
  }

  function SetOutcome(t: Tables, h: string, outcome: string): Tables {
    if h in t.invites then PutInvite(t, h, t.invites[h].(outcome := Some(outcome))) else t
  }

  /** The account of a session that somebody else's claim took over goes into deletion if nobody logged in. */
  function Abandon(t: Tables, a: Option<string>): Tables {
    if a.Some? && a.value in t.accounts && t.accounts[a.value].status == Onboarding then
      PutAccount(t, a.value, t.accounts[a.value].(status := Deleting))
    else t
  }

  function NewAccount(): Account {
    Account(Onboarding, None, None, None, None, None, 1)
  }

  /** createAccount: insert, then attach; an id already taken makes the insert throw. */
  function CreateAccount(t: Tables, h: string, id: string): Tables {
    if id in t.accounts || h !in t.invites then t
    else PutInvite(PutAccount(t, id, NewAccount()), h, t.invites[h].(account := Some(id)))
  }

  /** What open() does with the invite it claimed. */
  function Prepare(t: Tables, h: string, i: Invite, id: string): Tables {
    match i.kind
    case Token => t
    case New => if i.account.None? then CreateAccount(t, h, id) else t
    case Relogin =>
      if i.account.Some? && i.account.value in t.accounts && t.accounts[i.account.value].status == NeedsRelogin then t
      else Release(t, h)
  }

  function Open(t: Tables, h: string, session: string, id: string, now: int): Tables {
    var (t1, r) := MemClaim(t, h, session, SESSION_TTL, Some(MAX_CONCURRENT), now);
    if r.Refused? then t else Prepare(Abandon(t1, r.abandoned), h, r.invite, id)
  }

  /** What a token reveal does with the invite it claimed: a token code is used up, any other is released. */
  function Settled(t: Tables, h: string, now: int): Tables {
    if h in t.invites && t.invites[h].kind == Token && t.invites[h].account.Some? then MarkUsed(t, h, now)
    else Release(t, h)
  }

  /** The whole reveal, with nothing between its claim and its outcome. */
  function Reveal(t: Tables, h: string, session: string, now: int): Tables {
    var (t1, r) := MemClaim(t, h, session, REVEAL_TTL, None, now);
    if r.Refused? then t else Settled(t1, h, now)
  }

  /** The session a cookie opens: its invite is bound to a stored account and the session has not run out. */
  predicate InSession(t: Tables, h: string, now: int) {
    && h in t.invites && t.invites[h].session.Some?
    && t.invites[h].sessionExpiresAt.Some? && t.invites[h].sessionExpiresAt.value > now
    && t.invites[h].account.Some? && t.invites[h].account.value in t.accounts
  }

  predicate ActiveElsewhere(t: Tables, tg: string, a: string) {
    ActiveOther(t.accounts, a, Some(tg))
  }

  /** finish(): the worker is logged in as `tg`; `putOk` is whether the meta object could be written. */
  function Finish(t: Tables, h: string, tg: string, username: Option<string>, putOk: bool, now: int): Tables
    requires InSession(t, h, now)
  {
    var id := t.invites[h].account.value;
    var a := t.accounts[id];
    if t.invites[h].kind == Relogin then
      if a.telegram != Some(tg) then
        PutAccount(MarkUsed(SetOutcome(t, h, "wrong_account"), h, now), id, a.(secretRev := a.secretRev + 1))
      else if ActiveElsewhere(t, tg, id) then t
      else MarkUsed(PutAccount(t, id, a.(status := Active, username := username)), h, now)
    else if ActiveElsewhere(t, tg, id) then
      PutAccount(MarkUsed(SetOutcome(t, h, "duplicate"), h, now),
                 id, a.(status := Deleting, deleteStep := Some("logged_out")))
    else if !putOk then t
    else
      MarkUsed(PutAccount(t, id, a.(status := Active, telegram := Some(tg),
                     username := username, activatedAt := Some(now))), h, now)
  }

  datatype Attempt = Code | Password | Phone

  function Bumped(i: Invite, k: Attempt): (Invite, nat) {
    match k
    case Code => (i.(codeAttempts := i.codeAttempts + 1), i.codeAttempts + 1)
    case Password => (i.(passwordAttempts := i.passwordAttempts + 1), i.passwordAttempts + 1)
    case Phone => (i.(phoneAttempts := i.phoneAttempts + 1), i.phoneAttempts + 1)
  }

  /** submit() up to the call of the worker: the attempt is counted, and one too many ends the session. */
  function Submit(t: Tables, h: string, k: Attempt, now: int): Tables
    requires InSession(t, h, now)
  {
    var (i, n) := Bumped(t.invites[h], k);
    var t1 := PutInvite(t, h, i);
    if n > (if k == Phone then MAX_PHONE_ATTEMPTS else MAX_ATTEMPTS) then
      Abandon(MarkUsed(SetOutcome(t1, h, "too_many_attempts"), h, now), i.account)
    else t1
  }

  predicate BoundToExpired(t: Tables, a: string, now: int) {
    exists h :: h in ExpiredCodes(t.invites, now) && t.invites[h].kind == New && t.invites[h].account == Some(a)
  }

  /** expire(): every run-out session is released and its new account, if nobody logged in, goes into deletion. */
  function Expire(t: Tables, now: int): Tables {
    Tables(
      map h | h in t.invites :: if h in ExpiredCodes(t.invites, now) then ResetInvite(t.invites[h]) else t.invites[h],
      map a | a in t.accounts ::
        if t.accounts[a].status == Onboarding && BoundToExpired(t, a, now) then t.accounts[a].(status := Deleting)
        else t.accounts[a])
  }

  // ------------------------------------------------------------------ the step system

  datatype State = State(
    t: Tables,
    byOpen: set<string>,           // the codes whose latest claim was made by open()
    secret: set<string>,           // every session a token reveal generated; no browser knows them
    underWay: map<string, string>,  // the reveals that claimed a code and have not settled, by their session
    ids: set<string>,              // every account id ever generated
    shows: seq<string>,            // the accounts whose token was shown, one entry a showing
    now: int)

  datatype Action =
    | Tick(time: int)
    | OpenLink(h: string, session: string, id: string)
    | LoggedIn(h: string, tg: string, username: Option<string>, putOk: bool)
    | Attempted(h: string, kind: Attempt)
    | ShowToken(h: string)
    | ExpirePass
    | RevealClaim(h: string, session: string)
    | RevealSettle(session: string)
    | Invited(h: string, invite: Kind, account: Option<string>)
    | AdminDelete(a: string)
    | SessionLost(a: string)
    | Reissue(a: string)
    | DeletionStep(a: string, step: Option<string>)
    | RecordRemoved(a: string)

  predicate SessionTaken(t: Tables, session: string) {
    exists h :: h in t.invites && t.invites[h].session == Some(session)
  }

  /** open() claims the code anew. */
  predicate ClaimsAnew(s: State, h: string, session: string) {
    && h in s.t.invites && !Live(s.t.invites[h], s.now)
    && MemClaim(s.t, h, session, SESSION_TTL, Some(MAX_CONCURRENT), s.now).1.Claimed?
  }

  function Step(s: State, x: Action): State {
    match x
    case Tick(time) => if time >= s.now then s.(now := time) else s
    case OpenLink(h, session, id) =>
      if id in s.ids || session in s.secret then s  // generated ids are new, and nobody knows a reveal's session
      else
        s.(t := Open(s.t, h, session, id, s.now), ids := s.ids + {id},
           byOpen := if ClaimsAnew(s, h, session) then s.byOpen + {h} else s.byOpen)
    case LoggedIn(h, tg, username, putOk) =>
      if InSession(s.t, h, s.now) && s.t.invites[h].outcome.None?
      then s.(t := Finish(s.t, h, tg, username, putOk, s.now)) else s
    case Attempted(h, k) =>
      if InSession(s.t, h, s.now) && s.t.invites[h].outcome.None? then s.(t := Submit(s.t, h, k, s.now)) else s
    case ShowToken(h) =>
      if InSession(s.t, h, s.now) && s.t.invites[h].kind == New
         && s.t.accounts[s.t.invites[h].account.value].tokenShownAt.None? then
        var a := s.t.invites[h].account.value;
        s.(t := PutAccount(s.t, a, s.t.accounts[a].(tokenShownAt := Some(s.now))), shows := s.shows + [a])
      else s
    case ExpirePass => s.(t := Expire(s.t, s.now))
    case RevealClaim(h, session) =>
      var (t1, r) := MemClaim(s.t, h, session, REVEAL_TTL, None, s.now);
      if session in s.secret || SessionTaken(s.t, session) || r.Refused? then s  // generated sessions are new
      else s.(t := t1, byOpen := s.byOpen - {h}, secret := s.secret + {session}, underWay := s.underWay[session := h])
    case RevealSettle(session) =>
      if session in s.underWay then
        s.(t := Settled(s.t, s.underWay[session], s.now), underWay := s.underWay - {session})
      else s
    case Invited(h, kind, account) =>
      if h in s.t.invites then s  // generated codes are new
      else s.(t := PutInvite(s.t, h, FreshInvite(kind, if kind == New then None else account, s.now + INVITE_TTL)))
    case AdminDelete(a) =>
      if a in s.t.accounts && s.t.accounts[a].status != Deleting then
        s.(t := PutAccount(s.t, a, s.t.accounts[a].(status := Deleting, deleteStep := None)))
      else s
    case SessionLost(a) =>
      if a in s.t.accounts && s.t.accounts[a].status == Active then
        s.(t := PutAccount(s.t, a, s.t.accounts[a].(status := NeedsRelogin)))
      else s
    case Reissue(a) =>
      if a in s.t.accounts
      then s.(t := PutAccount(s.t, a, s.t.accounts[a].(secretRev := s.t.accounts[a].secretRev + 1))) else s
    case DeletionStep(a, step) =>
      if a in s.t.accounts then s.(t := PutAccount(s.t, a, s.t.accounts[a].(deleteStep := step))) else s
    case RecordRemoved(a) => s.(t := s.t.(accounts := s.t.accounts - {a}))
  }

  function Run(s: State, xs: seq<Action>): State
    decreases |xs|
  {
    if xs == [] then s else Run(Step(s, xs[0]), xs[1..])
  }

  function Start(now: int): State {
    State(Tables(map[], map[]), {}, {}, map[], {}, [], now)
  }

  // ------------------------------------------------------------------ live claims

  function LiveByOpen(s: State): set<string> {
    set h | h in s.byOpen && h in s.t.invites && Live(s.t.invites[h], s.now)
  }

  /**
   * What no step takes from an invite: its kind, a use, and the session of a live claim unless the claim is
   * released.
   */
  predicate InviteKept(i: Invite, j: Invite, now: int) {
    && j.kind == i.kind
    && (i.usedAt.Some? ==> j.usedAt.Some?)
    && (Live(i, now) ==>
         j.claimedAt.None? ||
           (j.claimedAt == i.claimedAt && j.session == i.session && j.sessionExpiresAt == i.sessionExpiresAt))
  }

  ghost predicate InvitesKept(t: Tables, r: Tables, now: int) {
    forall h | h in t.invites :: h in r.invites && InviteKept(t.invites[h], r.invites[h], now)
  }

  /** Only the invite h differs. */
  ghost predicate OnlyInvite(t: Tables, r: Tables, h: string) {
    && (forall k | k in t.invites && k != h :: k in r.invites && r.invites[k] == t.invites[k])
    && (forall k | k in r.invites && k != h :: k in t.invites)
  }

  /** What a session under way leaves of its invite: everything but attempts, outcome and use. */
  predicate BoundAlike(i: Invite, j: Invite) {
    && j.kind == i.kind && j.account == i.account && j.claimedAt == i.claimedAt
    && j.session == i.session && j.sessionExpiresAt == i.sessionExpiresAt
    && (i.usedAt.Some? ==> j.usedAt.Some?)
  }

  lemma PutIsOnly(t: Tables, r: Tables, h: string, j: Invite)
    requires h in t.invites && r.invites == t.invites[h := j]
    ensures OnlyInvite(t, r, h) && h in r.invites && r.invites[h] == j
  {
  }

  /** The invite a claim leaves: as it was, or claimed anew from an unclaimed one or from a run-out one reset. */
  lemma ClaimInviteEffect(t: Tables, h: string, session: string, ttl: int, limit: Limit, now: int)
    requires MemClaim(t, h, session, ttl, limit, now).1.Claimed?
    ensures h in t.invites
    ensures var (r, c) := MemClaim(t, h, session, ttl, limit, now); var i := t.invites[h];
      && r.accounts == t.accounts && r.invites == t.invites[h := c.invite] && i.usedAt.None?
      && (Live(i, now) ==> c.invite == i && i.session == Some(session) && c.abandoned == None)
      && (!Live(i, now) ==>
           && c.invite == (if i.claimedAt.Some? then ResetInvite(i) else i).(
                claimedAt := Some(now), session := Some(session), sessionExpiresAt := Some(now + ttl))
           && c.abandoned == if i.claimedAt.Some? && i.kind == New then i.account else None)
  {
    if Live(t.invites[h], now) {
      assert t.invites[h := t.invites[h]] == t.invites;
    }
  }

  /** What becomes of the claimed invite. */
  lemma PrepareEffect(t: Tables, h: string, id: string)
    requires h in t.invites
    ensures var i := t.invites[h]; var r := Prepare(t, h, i, id);
      || r == t
      || (i.kind == New && i.account == None && id !in t.accounts
           && r == Tables(t.invites[h := i.(account := Some(id))], t.accounts[id := NewAccount()]))
      || (i.kind == Relogin && r == t.(invites := t.invites[h := ResetInvite(i)]))
  {
  }

  lemma OpenInvite(t: Tables, h: string, session: string, id: string, now: int)
    ensures var r := Open(t, h, session, id, now);
      && OnlyInvite(t, r, h)
      && (h in t.invites <==> h in r.invites)
      && (h in t.invites ==> InviteKept(t.invites[h], r.invites[h], now))
  {
    var (t1, c) := MemClaim(t, h, session, SESSION_TTL, Some(MAX_CONCURRENT), now);
    if c.Claimed? {
      ClaimInviteEffect(t, h, session, SESSION_TTL, Some(MAX_CONCURRENT), now);
      PrepareEffect(Abandon(t1, c.abandoned), h, id);
    }
  }

  lemma EndedEffect(t: Tables, h: string, outcome: string, now: int)
    requires h in t.invites
    ensures MarkUsed(SetOutcome(t, h, outcome), h, now)
      == t.(invites := t.invites[h := t.invites[h].(outcome := Some(outcome), usedAt := Some(now))])
  {
    var i := t.invites[h];
    assert t.invites[h := i.(outcome := Some(outcome))][h := i.(outcome := Some(outcome), usedAt := Some(now))]
      == t.invites[h := i.(outcome := Some(outcome), usedAt := Some(now))];
  }

  lemma FinishReloginInvite(t: Tables, h: string, tg: string, username: Option<string>, putOk: bool, now: int)
    requires InSession(t, h, now) && t.invites[h].kind == Relogin
    ensures var r := Finish(t, h, tg, username, putOk, now);
      OnlyInvite(t, r, h) && h in r.invites && BoundAlike(t.invites[h], r.invites[h])
  {
    EndedEffect(t, h, "wrong_account", now);
  }

  lemma FinishNewInvite(t: Tables, h: string, tg: string, username: Option<string>, putOk: bool, now: int)
    requires InSession(t, h, now) && t.invites[h].kind != Relogin
    ensures var r := Finish(t, h, tg, username, putOk, now);
      OnlyInvite(t, r, h) && h in r.invites && BoundAlike(t.invites[h], r.invites[h])
  {
    EndedEffect(t, h, "duplicate", now);
  }

  lemma FinishInvite(t: Tables, h: string, tg: string, username: Option<string>, putOk: bool, now: int)
    requires InSession(t, h, now)
    ensures var r := Finish(t, h, tg, username, putOk, now);
      OnlyInvite(t, r, h) && h in r.invites && BoundAlike(t.invites[h], r.invites[h])
  {
    if t.invites[h].kind == Relogin {
      FinishReloginInvite(t, h, tg, username, putOk, now);
    } else {
      FinishNewInvite(t, h, tg, username, putOk, now);
    }
  }

  lemma BumpedAlike(i: Invite, k: Attempt)
    ensures BoundAlike(i, Bumped(i, k).0)
  {
  }

  lemma SubmitInvite(t: Tables, h: string, k: Attempt, now: int)
    requires InSession(t, h, now)
    ensures var r := Submit(t, h, k, now);
      OnlyInvite(t, r, h) && h in r.invites && BoundAlike(t.invites[h], r.invites[h])
  {
    var i := Bumped(t.invites[h], k).0;
    BumpedAlike(t.invites[h], k);
    EndedEffect(PutInvite(t, h, i), h, "too_many_attempts", now);
  }

  lemma RevealInvite(s: State, x: Action)
    requires x.RevealClaim? || x.RevealSettle?
    ensures InvitesKept(s.t, Step(s, x).t, s.now)
  {
    if x.RevealClaim? && MemClaim(s.t, x.h, x.session, REVEAL_TTL, None, s.now).1.Claimed? {
      ClaimInviteEffect(s.t, x.h, x.session, REVEAL_TTL, None, s.now);
    }
  }

  predicate InSessionStep(x: Action) {
    x.OpenLink? || x.LoggedIn? || x.Attempted?
  }

  lemma OtherInvites(s: State, x: Action)
    requires !InSessionStep(x) && !x.RevealClaim? && !x.RevealSettle?
    ensures InvitesKept(s.t, Step(s, x).t, s.now)
  {
  }

  /** A step changes at most the one invite it names, except the expiry pass. */
  lemma StepInvites(s: State, x: Action)
    ensures InvitesKept(s.t, Step(s, x).t, s.now)
  {
    match x {
      case OpenLink(h, session, id) => OpenInvite(s.t, h, session, id, s.now);
      case LoggedIn(h, tg, username, putOk) =>
        if InSession(s.t, h, s.now) { FinishInvite(s.t, h, tg, username, putOk, s.now); }
      case Attempted(h, k) => if InSession(s.t, h, s.now) { SubmitInvite(s.t, h, k, s.now); }
      case RevealClaim(_, _) => RevealInvite(s, x);
      case RevealSettle(_) => RevealInvite(s, x);
      case _ => OtherInvites(s, x);
    }
  }

  predicate LiveAt(s: State, h: string) {
    h in s.t.invites && Live(s.t.invites[h], s.now)
  }

  /** The invite is claimed, unused and not run out in every state of the run. */
  predicate StaysLive(s: State, xs: seq<Action>, h: string)
    decreases |xs|
  {
    LiveAt(s, h) && (xs == [] || StaysLive(Step(s, xs[0]), xs[1..], h))
  }

  /** Over every run: an invite changes its session only after the session ran out, or a use, or a release. */
  lemma {:induction false} LiveSessionKeepsItsInvite(s: State, xs: seq<Action>, h: string)
    requires StaysLive(s, xs, h)
    ensures LiveAt(Run(s, xs), h) && Run(s, xs).t.invites[h].session == s.t.invites[h].session
    decreases |xs|
  {
    if xs != [] {
      StepInvites(s, xs[0]);
      LiveSessionKeepsItsInvite(Step(s, xs[0]), xs[1..], h);
    }
  }

  /** Over every run a used invite stays used. */
  lemma {:induction false} UsedForGood(s: State, xs: seq<Action>, h: string)
    requires h in s.t.invites && s.t.invites[h].usedAt.Some?
    ensures var r := Run(s, xs); h in r.t.invites && r.t.invites[h].usedAt.Some?
    decreases |xs|
  {
    if xs != [] {
      StepInvites(s, xs[0]);
      UsedForGood(Step(s, xs[0]), xs[1..], h);
    }
  }

  /** A used invite is claimable by nobody, under either store. */
  lemma UsedNeverClaimed(t: Tables, h: string, session: string, ttl: int, limit: Limit, now: int)
    requires h in t.invites && t.invites[h].usedAt.Some?
    ensures MemClaim(t, h, session, ttl, limit, now) == (t, Refused(Used))
    ensures PgClaim(t, h, session, ttl, limit, now) == (t, Refused(Used))
  {
  }

  // ------------------------------------------------------------------ the bound on live sessions

  lemma RevealShrinks(s: State, x: Action)
    requires x.RevealClaim? || x.RevealSettle?
    ensures LiveByOpen(Step(s, x)) <= LiveByOpen(s)
  {
    if x.RevealClaim? && MemClaim(s.t, x.h, x.session, REVEAL_TTL, None, s.now).1.Claimed? {
      ClaimInviteEffect(s.t, x.h, x.session, REVEAL_TTL, None, s.now);
    }
  }

  lemma OtherShrinks(s: State, x: Action)
    requires !InSessionStep(x) && !x.RevealClaim? && !x.RevealSettle?
    ensures LiveByOpen(Step(s, x)) <= LiveByOpen(s)
  {
  }

  /** A step that makes no claim by open() leaves no live session of open() that was not there before. */
  lemma LiveShrinks(s: State, x: Action)
    requires !x.OpenLink?
    ensures LiveByOpen(Step(s, x)) <= LiveByOpen(s)
  {
    match x {
      case LoggedIn(h, tg, username, putOk) =>
        if InSession(s.t, h, s.now) { FinishInvite(s.t, h, tg, username, putOk, s.now); }
      case Attempted(h, k) => if InSession(s.t, h, s.now) { SubmitInvite(s.t, h, k, s.now); }
      case RevealClaim(_, _) => RevealShrinks(s, x);
      case RevealSettle(_) => RevealShrinks(s, x);
      case _ => OtherShrinks(s, x);
    }
  }

  lemma OpenKeepsBound(s: State, h: string, session: string, id: string)
    requires |LiveByOpen(s)| <= MAX_CONCURRENT
    ensures |LiveByOpen(Step(s, OpenLink(h, session, id)))| <= MAX_CONCURRENT
  {
    var r := Step(s, OpenLink(h, session, id));
    OpenInvite(s.t, h, session, id, s.now);
    if r != s && ClaimsAnew(s, h, session) {
      assert LiveByOpen(s) <= LiveCodes(s.t.invites, s.now);
      Fewer(LiveByOpen(s), LiveCodes(s.t.invites, s.now));
      assert LiveByOpen(r) <= LiveByOpen(s) + {h};
      Fewer(LiveByOpen(r), LiveByOpen(s) + {h});
    } else {
      OpenElseShrinks(s, h, session, id);
      Fewer(LiveByOpen(r), LiveByOpen(s));
    }
  }

  /** An open() that claims nothing anew makes nothing live. */
  lemma OpenElseShrinks(s: State, h: string, session: string, id: string)
    requires Step(s, OpenLink(h, session, id)) == s || !ClaimsAnew(s, h, session)
    ensures LiveByOpen(Step(s, OpenLink(h, session, id))) <= LiveByOpen(s)
  {
    OpenInvite(s.t, h, session, id, s.now);
  }

  lemma Fewer<T>(a: set<T>, b: set<T>)
    requires a <= b
    ensures |a| <= |b|
  {
    assert b == a + (b - a);
  }

  /** At every moment at most MAX_CONCURRENT sessions claimed by open() are live, however many token reveals claim. */
  lemma {:induction false} LiveSessionsBounded(s: State, xs: seq<Action>)
    requires |LiveByOpen(s)| <= MAX_CONCURRENT
    ensures |LiveByOpen(Run(s, xs))| <= MAX_CONCURRENT
    decreases |xs|
  {
    if xs != [] {
      if xs[0].OpenLink? {
        OpenKeepsBound(s, xs[0].h, xs[0].session, xs[0].id);
      } else {
        LiveShrinks(s, xs[0]);
        Fewer(LiveByOpen(Step(s, xs[0])), LiveByOpen(s));
      }
      LiveSessionsBounded(Step(s, xs[0]), xs[1..]);
    }
  }
}
