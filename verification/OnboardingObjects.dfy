/** The onboarding object over its store, in place: each handler against its effect on the tables. */
module OnboardingObjects {
  import opened Options
  import opened Invites
  import opened Onboarding
  import opened OnboardingAccounts
  import opened OnboardingEffects

  class OnboardingService {
    const store: MemStore

    constructor (store: MemStore)
      ensures this.store == store
    {
      this.store := store;
    }

    method AbandonAccount(a: Option<string>)
      modifies store`accounts
      ensures store.View() == Abandon(old(store.View()), a)
    {
      if a.Some? && a.value in store.accounts && store.accounts[a.value].status == Invites.Onboarding {
        store.SetStatus(a.value, Deleting);
      }
    }

    method CreateFor(h: string, id: string)
      requires h in store.invites
      modifies store`accounts, store`invites
      ensures store.View() == CreateAccount(old(store.View()), h, id)
    {
      var ok := store.InsertAccount(id, NewAccount());
      if ok {
        store.AttachAccount(h, id);
      }
    }

    /** POST of an invite link: claim, clean up what the claim took over, and prepare the session. */
    method OpenInvite(h: string, session: string, id: string, now: int) returns (page: Page)
      modifies store`accounts, store`invites
      ensures store.View() == Open(old(store.View()), h, session, id, now)
      ensures OpenedAs(old(store.View()), h, session, id, now, store.View(), page)
      ensures page == Redirect ==>
        h in store.invites && Live(store.invites[h], now) && store.invites[h].session == Some(session)
      ensures page == Refuse(503) <==>
        MemClaim(old(store.View()), h, session, SESSION_TTL, Some(MAX_CONCURRENT), now).1 == Refused(Busy)
    {
      ghost var t := store.View();
      OpenExactly(t, h, session, id, now);
      var r := store.ClaimInvite(h, session, SESSION_TTL, Some(MAX_CONCURRENT), now);
      if r.Refused? {
        page := match r.reason
          case InUse => Refuse(409)
          case Used => Refuse(409)
          case Busy => Refuse(503)
          case NotFound => Refuse(404)
          case Expired => Refuse(404);
        return;
      }
      AbandonAccount(r.abandoned);
      if r.invite.kind == Token {
        return Refuse(404);
      }
      if r.invite.kind == New && r.invite.account.None? {
        CreateFor(h, id);
      }
      if r.invite.kind == Relogin {
        if !(r.invite.account.Some? && r.invite.account.value in store.accounts
             && store.accounts[r.invite.account.value].status == NeedsRelogin) {
          store.ReleaseInvite(h);
          return Refuse(409);
        }
      }
      page := Redirect;
    }

    /**
     * A worker logged in as `tg` ends the session: a relogin of the same user, a duplicate, or a new active
     * account.
     */
    method FinishLogin(h: string, tg: string, username: Option<string>, putOk: bool, now: int)
      requires InSession(store.View(), h, now) && TelegramUnique(store.View())
      modifies store`accounts, store`invites
      ensures store.View() == Finish(old(store.View()), h, tg, username, putOk, now)
      ensures FinishedAs(old(store.View()), h, tg, username, putOk, now, store.View())
    {
      FinishExactly(store.View(), h, tg, username, putOk, now);
      var id := store.invites[h].account.value;
      var a := store.accounts[id];
      if store.invites[h].kind == Relogin {
        if a.telegram != Some(tg) {
          store.SetInviteOutcome(h, "wrong_account");
          store.MarkInviteUsed(h, now);
          store.PutAccountRow(id, a.(secretRev := a.secretRev + 1));
          return;
        }
        var ok := store.Activate(id, a.(status := Active, username := username));
        if ok {
          store.MarkInviteUsed(h, now);
        }
        return;
      }
      var dup := store.ActiveByTelegramId(tg);
      var isDup := dup.Some? && dup.value != id;
      if !isDup {
        if !putOk {
          return;
        }
        var ok := store.Activate(id, a.(status := Active, telegram := Some(tg),
            username := username, activatedAt := Some(now)));
        isDup := !ok;
      }
      if isDup {
        store.SetInviteOutcome(h, "duplicate");
        store.MarkInviteUsed(h, now);
        store.PutAccountRow(id, a.(status := Deleting, deleteStep := Some("logged_out")));
        return;
      }
      store.MarkInviteUsed(h, now);
    }

    /** Counts an attempt; one too many ends the session before the worker is called. */
    method SubmitAttempt(h: string, k: Attempt, now: int) returns (callWorker: bool)
      requires InSession(store.View(), h, now)
      modifies store`accounts, store`invites
      ensures store.View() == Submit(old(store.View()), h, k, now)
      ensures SubmittedAs(old(store.View()), h, k, now, store.View(), callWorker)
    {
      SubmitExactly(store.View(), h, k, now);
      var account := store.invites[h].account;
      var (i, n) := Bumped(store.invites[h], k);
      store.PutInviteRow(h, i);
      if n > (if k == Phone then MAX_PHONE_ATTEMPTS else MAX_ATTEMPTS) {
        store.SetInviteOutcome(h, "too_many_attempts");
        store.MarkInviteUsed(h, now);
        AbandonAccount(account);
        return false;
      }
      callWorker := true;
    }

    /** A token link: claims without a limit; a code of another kind is released again, a token code is used up. */
    method RevealToken(h: string, session: string, now: int) returns (account: Option<string>)
      modifies store`invites
      ensures store.View() == Reveal(old(store.View()), h, session, now)
      ensures RevealedAs(old(store.View()), h, session, now, store.View(), account)
    {
      RevealExactly(store.View(), h, session, now);
      var r := store.ClaimInvite(h, session, REVEAL_TTL, None, now);
      if r.Refused? {
        return None;
      }
      if r.invite.kind != Token || r.invite.account.None? {
        store.ReleaseInvite(h);
        return None;
      }
      store.MarkInviteUsed(h, now);
      account := r.invite.account;
    }

    /** One run-out session: its new account is given up, its invite released. */
    method ExpireOne(ghost t: Tables, ghost done: set<string>, h: string, now: int)
      requires store.View() == ExpiredSoFar(t, now, done) && h in t.invites && h !in done
      modifies store`accounts, store`invites
      ensures store.View() == ExpiredSoFar(t, now, done + {h})
    {
      assert store.invites[h] == t.invites[h];
      if store.invites[h].account.Some? && store.invites[h].kind == New {
        AbandonAccount(store.invites[h].account);
      }
      store.ReleaseInvite(h);
      ExpireOneMore(t, now, done, h);
    }

    /** The periodic expiry: walk the run-out sessions, then release each. */
    method ExpireSessions(now: int)
      modifies store`accounts, store`invites
      ensures store.View() == Expire(old(store.View()), now)
      ensures ExpiredAs(old(store.View()), now, store.View())
    {
      ghost var t := store.View();
      ExpireExactly(t, now);
      var codes := store.ExpiredSessions(now);
      ghost var done: set<string> := {};
      for n := 0 to |codes|
        invariant done == set i | 0 <= i < n :: codes[i]
        invariant store.View() == ExpiredSoFar(t, now, done)
      {
        assert codes[n] in (set k | k in codes);
        assert codes[n] in ExpiredCodes(t.invites, now) && codes[n] !in done;
        ExpireOne(t, done, codes[n], now);
        done := done + {codes[n]};
      }
      assert done == ExpiredCodes(t.invites, now) by {
        assert done == set k | k in codes;
      }
      ExpiredAll(t, now);
    }
  }

  predicate BoundTo(t: Tables, codes: set<string>, a: string) {
    exists h :: h in codes && h in t.invites && t.invites[h].kind == New && t.invites[h].account == Some(a)
  }

  /** The tables once the codes in `done` have been expired. */
  function ExpiredSoFar(t: Tables, now: int, done: set<string>): Tables {
    Tables(
      map h | h in t.invites :: if h in done then ResetInvite(t.invites[h]) else t.invites[h],
      map a | a in t.accounts ::
        if t.accounts[a].status == Invites.Onboarding && BoundTo(t, done, a) then t.accounts[a].(status := Deleting)
        else t.accounts[a])
  }

  lemma BoundToOneMore(t: Tables, done: set<string>, h: string, a: string)
    requires h in t.invites
    ensures BoundTo(t, done + {h}, a) <==>
      BoundTo(t, done, a) || (t.invites[h].kind == New && t.invites[h].account == Some(a))
  {
    if t.invites[h].kind == New && t.invites[h].account == Some(a) {
      assert h in done + {h};
    }
  }

  lemma AbandonOneMore(t: Tables, now: int, done: set<string>, h: string)
    requires h in t.invites
    ensures var m := ExpiredSoFar(t, now, done);
      (if t.invites[h].account.Some? && t.invites[h].kind == New then Abandon(m, t.invites[h].account) else m).accounts
        == ExpiredSoFar(t, now, done + {h}).accounts
  {
    forall a ensures BoundTo(t, done + {h}, a) <==>
      BoundTo(t, done, a) || (t.invites[h].kind == New && t.invites[h].account == Some(a)) {
      BoundToOneMore(t, done, h, a);
    }
  }

  /** Expiring one more code is abandoning its account and releasing it. */
  lemma ExpireOneMore(t: Tables, now: int, done: set<string>, h: string)
    requires h in t.invites && h !in done
    ensures var m := ExpiredSoFar(t, now, done);
      Release(if t.invites[h].account.Some? && t.invites[h].kind == New then Abandon(m, t.invites[h].account) else m, h)
        == ExpiredSoFar(t, now, done + {h})
  {
    var m := ExpiredSoFar(t, now, done);
    AbandonOneMore(t, now, done, h);
    assert m.invites[h := ResetInvite(t.invites[h])] == ExpiredSoFar(t, now, done + {h}).invites;
  }

  lemma ExpiredAll(t: Tables, now: int)
    ensures ExpiredSoFar(t, now, ExpiredCodes(t.invites, now)) == Expire(t, now)
  {
    forall a ensures BoundTo(t, ExpiredCodes(t.invites, now), a) == BoundToExpired(t, a, now) {}
  }
}
