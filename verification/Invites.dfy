/**
 * Invitations and accounts of the control plane (control-plane/src/store.ts) with the two stores that
 * must agree on them: the in-memory one (store_mem.ts) and the Postgres one (store_pg.ts).
 */
module Invites {
  import opened Options

  datatype Kind = New | Relogin | Token

  datatype Invite = Invite(
    kind: Kind, account: Option<string>, expiresAt: int,
    claimedAt: Option<int>, session: Option<string>, sessionExpiresAt: Option<int>, usedAt: Option<int>,
    codeAttempts: nat, passwordAttempts: nat, phoneAttempts: nat, outcome: Option<string>)

  datatype Status = Onboarding | Active | NeedsRelogin | Deleting

  datatype Account = Account(
    status: Status, telegram: Option<string>, username: Option<string>,
    activatedAt: Option<int>, tokenShownAt: Option<int>, deleteStep: Option<string>, secretRev: int)

  datatype Tables = Tables(invites: map<string, Invite>, accounts: map<string, Account>)

  datatype Reason = NotFound | Used | Expired | InUse | Busy

  datatype ClaimResult =
    | Claimed(invite: Invite, abandoned: Option<string>)
    | Refused(reason: Reason)

  /** How many live claims are allowed at once; None is JavaScript's positive infinity. */
  type Limit = Option<nat>

  /** A claimed, unused invite whose session has not run out. */
  predicate Live(i: Invite, now: int) {
    i.claimedAt.Some? && i.usedAt.None? && i.sessionExpiresAt.Some? && i.sessionExpiresAt.value > now
  }

  function LiveCodes(invites: map<string, Invite>, now: int): set<string> {
    set h | h in invites && Live(invites[h], now)
  }

  function FreshInvite(kind: Kind, account: Option<string>, expiresAt: int): Invite {
    Invite(kind, account, expiresAt, None, None, None, None, 0, 0, 0, None)
  }

  /** reset(): the invite is unclaimed again; a "new" invite also loses its account. */
  function ResetInvite(i: Invite): Invite {
    i.(claimedAt := None, session := None, sessionExpiresAt := None,
       codeAttempts := 0, passwordAttempts := 0, phoneAttempts := 0, outcome := None,
       account := if i.kind == New then None else i.account)
  }

  /** claimInvite of the in-memory store. */
  function MemClaim(t: Tables, h: string, session: string, ttl: int, limit: Limit, now: int): (Tables, ClaimResult) {
    if h !in t.invites then (t, Refused(NotFound))
    else
      var i := t.invites[h];
      if i.usedAt.Some? then (t, Refused(Used))
      else if i.expiresAt <= now then (t, Refused(Expired))
      else if Live(i, now) then
        if i.session == Some(session) then (t, Claimed(i, None)) else (t, Refused(InUse))
      else if limit.Some? && |LiveCodes(t.invites, now)| >= limit.value then (t, Refused(Busy))
      else
        var abandoned := if i.claimedAt.Some? && i.kind == New then i.account else None;
        var j := if i.claimedAt.Some? then ResetInvite(i) else i;
        var k := j.(claimedAt := Some(now), session := Some(session), sessionExpiresAt := Some(now + ttl));
        (t.(invites := t.invites[h := k]), Claimed(k, abandoned))
  }

  // ------------------------------------------------------------------ Postgres

  /** live() of the Postgres store does not look at used_at. */
  predicate PgLive(i: Invite, now: int) {
    i.claimedAt.Some? && i.sessionExpiresAt.Some? && i.sessionExpiresAt.value > now
  }

  /** SELECT count(*) ... WHERE claimed_at IS NOT NULL AND used_at IS NULL AND session_expires_at > $1 */
  function PgBusyRows(rows: map<string, Invite>, now: int): set<string> {
    set h | h in rows && !rows[h].claimedAt.None? && rows[h].usedAt.None?
         && rows[h].sessionExpiresAt.Some? && rows[h].sessionExpiresAt.value > now
  }

  /** UPDATE invites SET <RESET_SQL> WHERE code_hash = $1 */
  function PgReset(rows: map<string, Invite>, h: string): map<string, Invite> {
    if h in rows then
      var r := rows[h];
      rows[h := Invite(r.kind, (match r.kind case New => None case _ => r.account),
          r.expiresAt, None, None, None, r.usedAt, 0, 0, 0, None)]
    else rows
  }

  /** UPDATE invites SET claimed_at = $2, session_hash = $3, session_expires_at = $4 WHERE code_hash = $1 */
  function PgSetClaim(rows: map<string, Invite>, h: string, session: string, until: int,
      now: int): map<string, Invite> {
    if h in rows then
      rows[h := rows[h].(claimedAt := Some(now), session := Some(session), sessionExpiresAt := Some(until))]
    else rows
  }

  /** claimInvite of the Postgres store: one transaction under the advisory lock. */
  function PgClaim(t: Tables, h: string, session: string, ttl: int, limit: Limit, now: int): (Tables, ClaimResult) {
    if h !in t.invites then (t, Refused(NotFound))
    else
      var i := t.invites[h];
      if i.usedAt.Some? then (t, Refused(Used))
      else if i.expiresAt <= now then (t, Refused(Expired))
      else if PgLive(i, now) then
        if i.session == Some(session) then (t, Claimed(i, None)) else (t, Refused(InUse))
      else if limit.Some? && |PgBusyRows(t.invites, now)| >= limit.value then (t, Refused(Busy))
      else
        var abandoned := if !i.claimedAt.None? && i.kind == New then i.account else None;
        var rows := if !i.claimedAt.None? then PgReset(t.invites, h) else t.invites;
        var after := PgSetClaim(rows, h, session, now + ttl, now);
        (t.(invites := after), Claimed(after[h], abandoned))
  }

  /** Both stores answer every claim alike and leave the same tables, in every state. */
  lemma StoresAgreeOnClaims(t: Tables, h: string, session: string, ttl: int, limit: Limit, now: int)
    ensures PgClaim(t, h, session, ttl, limit, now) == MemClaim(t, h, session, ttl, limit, now)
  {
    assert PgBusyRows(t.invites, now) == LiveCodes(t.invites, now);
    if h in t.invites {
      assert PgReset(t.invites, h)[h] == ResetInvite(t.invites[h]);
      var i := t.invites[h];
      var rows := if i.claimedAt.Some? then PgReset(t.invites, h) else t.invites;
      var k := rows[h].(claimedAt := Some(now), session := Some(session), sessionExpiresAt := Some(now + ttl));
      assert PgSetClaim(rows, h, session, now + ttl, now) == t.invites[h := k];
    }
  }

  // ------------------------------------------------------------------ what a claim does

  /** The session of a claimed invite has time left. */
  predicate Running(i: Invite, now: int) {
    i.claimedAt.Some? && i.sessionExpiresAt.Some? && now < i.sessionExpiresAt.value
  }

  /** Some set of claimed, unused invites with time left is as large as the limit. */
  ghost predicate LimitReached(invites: map<string, Invite>, limit: Limit, now: int) {
    limit.Some? && exists live: set<string> :: AllRunning(invites, live, now) && |live| >= limit.value
  }

  ghost predicate AllRunning(invites: map<string, Invite>, live: set<string>, now: int) {
    forall h | h in live :: h in invites && Running(invites[h], now) && invites[h].usedAt.None?
  }

  /** The invite claimed anew: a run-out claim leaves no attempts, no outcome and, for a "new" one, no account. */
  predicate ClaimedAnew(i: Invite, session: string, until: int, now: int, j: Invite) {
    && j.claimedAt == Some(now) && j.session == Some(session) && j.sessionExpiresAt == Some(until)
    && j.kind == i.kind && j.expiresAt == i.expiresAt && j.usedAt == i.usedAt
    && (i.claimedAt.None? ==>
         && j.account == i.account && j.outcome == i.outcome && j.codeAttempts == i.codeAttempts
         && j.passwordAttempts == i.passwordAttempts && j.phoneAttempts == i.phoneAttempts)
    && (i.claimedAt.Some? ==>
         && j.outcome == None && j.codeAttempts == 0 && j.passwordAttempts == 0 && j.phoneAttempts == 0
         && j.account == if i.kind == New then None else i.account)
  }

  /** Why a claim is refused, the first reason that applies. */
  ghost predicate RefusedFor(t: Tables, h: string, session: string, limit: Limit, now: int, reason: Reason) {
    match reason
    case NotFound => h !in t.invites
    case Used => h in t.invites && t.invites[h].usedAt.Some?
    case Expired => h in t.invites && t.invites[h].usedAt.None? && now >= t.invites[h].expiresAt
    case InUse =>
      && h in t.invites && t.invites[h].usedAt.None? && now < t.invites[h].expiresAt && Running(t.invites[h], now)
      && t.invites[h].session != Some(session)
    case Busy =>
      && h in t.invites && t.invites[h].usedAt.None? && now < t.invites[h].expiresAt && !Running(t.invites[h], now)
      && LimitReached(t.invites, limit, now)
  }

  /** The answer to a claim and the tables after it. */
  ghost predicate ClaimedAs(t: Tables, h: string, session: string, ttl: int, limit: Limit, now: int, r: Tables,
      c: ClaimResult)
  {
    && (forall reason :: c == Refused(reason) <==> RefusedFor(t, h, session, limit, now, reason))
    && (c.Refused? ==> r == t)
    && (c.Claimed? ==>
         && h in t.invites && r == t.(invites := t.invites[h := c.invite])
         && (Running(t.invites[h], now) ==> c == Claimed(t.invites[h], None))
         && (!Running(t.invites[h], now) ==>
              && ClaimedAnew(t.invites[h], session, now + ttl, now, c.invite)
              && c.abandoned ==
                   if t.invites[h].claimedAt.Some? && t.invites[h].kind == New then t.invites[h].account else None))
  }

  lemma LimitIs(invites: map<string, Invite>, limit: Limit, now: int)
    ensures LimitReached(invites, limit, now) <==> limit.Some? && |LiveCodes(invites, now)| >= limit.value
  {
    var all := LiveCodes(invites, now);
    assert AllRunning(invites, all, now);
    if limit.Some? && LimitReached(invites, limit, now) {
      var live :| AllRunning(invites, live, now) && |live| >= limit.value;
      assert live <= all;
      assert all == live + (all - live);
    }
  }

  /** The refusals of a claim and what it leaves, in every state. */
  lemma ClaimExactly(t: Tables, h: string, session: string, ttl: int, limit: Limit, now: int)
    ensures var (r, c) := MemClaim(t, h, session, ttl, limit, now); ClaimedAs(t, h, session, ttl, limit, now, r, c)
  {
    var (r, c) := MemClaim(t, h, session, ttl, limit, now);
    LimitIs(t.invites, limit, now);
    forall reason ensures c == Refused(reason) <==> RefusedFor(t, h, session, limit, now, reason) {
      match reason { case NotFound => case Used => case Expired => case InUse => case Busy => }
    }
    if c.Claimed? && Running(t.invites[h], now) {
      assert t.invites[h := t.invites[h]] == t.invites;
    }
  }

  // ------------------------------------------------------------------ the stores, in place

  function ExpiredCodes(invites: map<string, Invite>, now: int): set<string> {
    set h | h in invites && invites[h].claimedAt.Some? && invites[h].usedAt.None?
         && invites[h].sessionExpiresAt.Some? && invites[h].sessionExpiresAt.value <= now
  }

  /** Another account of the same Telegram user is active. */
  predicate ActiveOther(accounts: map<string, Account>, a: string, tg: Option<string>) {
    exists b :: b in accounts && b != a && accounts[b].status == Active && accounts[b].telegram == tg
  }

  class MemStore {
    var invites: map<string, Invite>
    var accounts: map<string, Account>

    function View(): Tables
      reads this
    {
      Tables(invites, accounts)
    }

    constructor ()
      ensures View() == Tables(map[], map[])
    {
      invites, accounts := map[], map[];
    }

    /** Counts the live claims by walking all invites. */
    method CountLive(now: int) returns (busy: nat)
      ensures busy == |LiveCodes(invites, now)|
    {
      busy := 0;
      var rest := invites.Keys;
      ghost var seen: set<string> := {};
      while rest != {}
        invariant rest <= invites.Keys
        invariant seen == set h | h in invites.Keys - rest && Live(invites[h], now)
        invariant busy == |seen|
        decreases rest
      {
        var h :| h in rest;
        if Live(invites[h], now) {
          busy := busy + 1;
          seen := seen + {h};
        }
        rest := rest - {h};
      }
      assert seen == LiveCodes(invites, now);
    }

    method Reset(h: string)
      requires h in invites
      modifies this`invites
      ensures invites == old(invites)[h := ResetInvite(old(invites[h]))]
    {
      var i := invites[h];
      i := i.(claimedAt := None);
      i := i.(session := None);
      i := i.(sessionExpiresAt := None);
      i := i.(codeAttempts := 0);
      i := i.(passwordAttempts := 0);
      i := i.(phoneAttempts := 0);
      i := i.(outcome := None);
      if i.kind == New {
        i := i.(account := None);
      }
      invites := invites[h := i];
    }

    method ClaimInvite(h: string, session: string, ttl: int, limit: Limit, now: int) returns (r: ClaimResult)
      modifies this`invites
      ensures (View(), r) == MemClaim(old(View()), h, session, ttl, limit, now)
      ensures ClaimedAs(old(View()), h, session, ttl, limit, now, View(), r)
    {
      ClaimExactly(View(), h, session, ttl, limit, now);
      if h !in invites { return Refused(NotFound); }
      var i := invites[h];
      if i.usedAt.Some? { return Refused(Used); }
      if i.expiresAt <= now { return Refused(Expired); }
      if Live(i, now) {
        if i.session == Some(session) { return Claimed(i, None); }
        return Refused(InUse);
      }
      var busy := CountLive(now);
      if limit.Some? && busy >= limit.value { return Refused(Busy); }
      var abandoned := if i.claimedAt.Some? && i.kind == New then i.account else None;
      if i.claimedAt.Some? {
        Reset(h);
      }
      invites := invites[h :=
        invites[h].(claimedAt := Some(now), session := Some(session), sessionExpiresAt := Some(now + ttl))];
      assert invites == old(invites)[h := invites[h]];
      r := Claimed(invites[h], abandoned);
    }

    method ReleaseInvite(h: string)
      modifies this`invites
      ensures invites == if h in old(invites) then old(invites)[h := ResetInvite(old(invites[h]))] else old(invites)
    {
      if h in invites {
        Reset(h);
      }
    }

    method MarkInviteUsed(h: string, now: int)
      modifies this`invites
      ensures invites ==
        if h in old(invites) then old(invites)[h := old(invites[h]).(usedAt := Some(now))] else old(invites)
    {
      if h in invites {
        invites := invites[h := invites[h].(usedAt := Some(now))];
      }
    }

    method AttachAccount(h: string, a: string)
      modifies this`invites
      ensures invites ==
        if h in old(invites) then old(invites)[h := old(invites[h]).(account := Some(a))] else old(invites)
    {
      if h in invites {
        invites := invites[h := invites[h].(account := Some(a))];
      }
    }

    /** True for exactly one caller: the first one while the account exists. */
    method ClaimTokenShow(a: string, now: int) returns (first: bool)
      modifies this`accounts
      ensures first <==> a in old(accounts) && old(accounts[a].tokenShownAt).None?
      ensures accounts ==
        if first then old(accounts)[a := old(accounts[a]).(tokenShownAt := Some(now))] else old(accounts)
    {
      if a !in accounts || accounts[a].tokenShownAt.Some? { return false; }
      accounts := accounts[a := accounts[a].(tokenShownAt := Some(now))];
      first := true;
    }

    /** The claimed, unused invites whose session ran out. */
    method ExpiredSessions(now: int) returns (codes: seq<string>)
      ensures (set h | h in codes) == ExpiredCodes(invites, now)
      ensures forall i, j :: 0 <= i < j < |codes| ==> codes[i] != codes[j]
    {
      codes := [];
      var rest := invites.Keys;
      while rest != {}
        invariant rest <= invites.Keys
        invariant forall h :: h in codes <==> h in ExpiredCodes(invites, now) - rest
        invariant forall i, j :: 0 <= i < j < |codes| ==> codes[i] != codes[j]
        decreases rest
      {
        var h :| h in rest;
        if h in ExpiredCodes(invites, now) {
          assert h !in codes;
          codes := codes + [h];
        }
        rest := rest - {h};
      }
    }

    method SetStatus(a: string, s: Status)
      requires a in accounts
      modifies this`accounts
      ensures accounts == old(accounts)[a := old(accounts[a]).(status := s)]
    {
      accounts := accounts[a := accounts[a].(status := s)];
    }

    /** The first active account of a Telegram user the walk meets. */
    method ActiveByTelegramId(tg: string) returns (r: Option<string>)
      ensures r.Some? ==>
        r.value in accounts && accounts[r.value].status == Active && accounts[r.value].telegram == Some(tg)
      ensures r.None? ==> forall b :: b in accounts && accounts[b].status == Active ==> accounts[b].telegram != Some(tg)
    {
      var rest := accounts.Keys;
      while rest != {}
        invariant rest <= accounts.Keys
        invariant forall b :: b in accounts.Keys - rest && accounts[b].status == Active ==>
          accounts[b].telegram != Some(tg)
        decreases rest
      {
        var b :| b in rest;
        if accounts[b].status == Active && accounts[b].telegram == Some(tg) {
          return Some(b);
        }
        rest := rest - {b};
      }
      r := None;
    }

    /** Replaces a row; refuses to make a second account of a Telegram user active. */
    method Activate(a: string, row: Account) returns (ok: bool)
      requires a in accounts && row.status == Active
      modifies this`accounts
      ensures ok <==> row.telegram.None? || !ActiveOther(old(accounts), a, row.telegram)
      ensures accounts == if ok then old(accounts)[a := row] else old(accounts)
    {
      if row.telegram.Some? {
        var rest := accounts.Keys;
        while rest != {}
          invariant rest <= accounts.Keys
          invariant forall b | b in accounts - rest && b != a && accounts[b].status == Active ::
            accounts[b].telegram != row.telegram
          decreases rest
        {
          var b :| b in rest;
          if b != a && accounts[b].status == Active && accounts[b].telegram == row.telegram {
            return false;
          }
          rest := rest - {b};
        }
      }
      accounts := accounts[a := row];
      ok := true;
    }

    method PutAccountRow(a: string, row: Account)
      requires a in accounts
      modifies this`accounts
      ensures accounts == old(accounts)[a := row]
    {
      accounts := accounts[a := row];
    }

    method SetInviteOutcome(h: string, outcome: string)
      modifies this`invites
      ensures invites ==
        if h in old(invites) then old(invites)[h := old(invites[h]).(outcome := Some(outcome))] else old(invites)
    {
      if h in invites {
        invites := invites[h := invites[h].(outcome := Some(outcome))];
      }
    }

    method PutInviteRow(h: string, i: Invite)
      modifies this`invites
      ensures invites == old(invites)[h := i]
    {
      invites := invites[h := i];
    }

    method InsertAccount(a: string, row: Account) returns (ok: bool)
      modifies this`accounts
      ensures ok <==> a !in old(accounts)
      ensures accounts == if ok then old(accounts)[a := row] else old(accounts)
    {
      ok := a !in accounts;
      if ok {
        accounts := accounts[a := row];
      }
    }
  }

  /** The Postgres store: the same claim made of SQL statements over the rows. */
  class PgStore {
    var invites: map<string, Invite>
    var accounts: map<string, Account>

    function View(): Tables
      reads this
    {
      Tables(invites, accounts)
    }

    constructor (t: Tables)
      ensures View() == t
    {
      invites, accounts := t.invites, t.accounts;
    }

    method CountBusy(now: int) returns (n: nat)
      ensures n == |PgBusyRows(invites, now)|
    {
      n := |PgBusyRows(invites, now)|;
    }

    method ClaimInvite(h: string, session: string, ttl: int, limit: Limit, now: int) returns (r: ClaimResult)
      modifies this`invites
      ensures (View(), r) == PgClaim(old(View()), h, session, ttl, limit, now)
      ensures (View(), r) == MemClaim(old(View()), h, session, ttl, limit, now)
      ensures ClaimedAs(old(View()), h, session, ttl, limit, now, View(), r)
    {
      ClaimExactly(View(), h, session, ttl, limit, now);
      StoresAgreeOnClaims(View(), h, session, ttl, limit, now);
      if h !in invites { return Refused(NotFound); }
      var i := invites[h];
      if i.usedAt.Some? { return Refused(Used); }
      if i.expiresAt <= now { return Refused(Expired); }
      if PgLive(i, now) {
        r := if i.session == Some(session) then Claimed(i, None) else Refused(InUse);
        return;
      }
      var n := CountBusy(now);
      if limit.Some? && n >= limit.value { return Refused(Busy); }
      var abandoned := if i.claimedAt.Some? && i.kind == New then i.account else None;
      if i.claimedAt.Some? {
        invites := PgReset(invites, h);
      }
      invites := PgSetClaim(invites, h, session, now + ttl, now);
      r := Claimed(invites[h], abandoned);
    }
  }
}
