/** The token repository and the auth service as objects. Each method is told the
    instants at which its statements run, and is proved to do what its request does
    when nothing interrupts it. */
module TokenService {
  import opened Common
  import opened Tokens
  import opened AuthCalls
  import opened SessionOutcomes

  class TokenRepository {
    var keys: map<Token, Entry>
    var index: map<UserId, Index>

    function View(): Store
      reads this
    {
      Store(keys, index)
    }

    constructor ()
      ensures View() == Store(map[], map[])
    {
      keys := map[];
      index := map[];
    }

    /** The pipeline that saving and rotating end with. */
    method PutToken(at: Time, user: UserId, t: Token, ttl: Time)
      requires ttl > 0
      modifies this
      ensures View() == Put(old(View()), at, user, t, ttl)
    {
      var members := Members(View(), user, at) + {t};
      keys := keys[t := Entry(user, at + ttl)];
      index := index[user := Index(members, at + KeptSeconds(ttl))];
    }

    method DropToken(at: Time, user: UserId, t: Token)
      modifies this
      ensures View() == Drop(old(View()), at, user, t)
    {
      keys := keys - {t};
      if user in index && at < index[user].expiry && t in index[user].members {
        var members := index[user].members - {t};
        if members == {} {
          index := index - {user};
        } else {
          index := index[user := Index(members, index[user].expiry)];
        }
      }
    }

    /** Computes the time to live at one instant, and runs the pipeline at a later one. */
    method SaveRefreshToken(at: Time, later: Time, user: UserId, t: Token, expiresAt: Time) returns (r: Result<()>)
      modifies this
      ensures r == if expiresAt <= at then Err(BadRequest) else Ok(())
      ensures View() == if expiresAt <= at then old(View()) else Put(old(View()), later, user, t, expiresAt - at)
    {
      var ttl := expiresAt - at;
      if ttl <= 0 {
        return Err(BadRequest);
      }
      PutToken(later, user, t, ttl);
      r := Ok(());
    }

    /** The owner of a token, and the instant at which its remaining time, asked for
        later, ends. */
    method FindTokenByToken(at: Time, later: Time, t: Token) returns (found: Option<(UserId, Time)>)
      ensures found == if Live(View(), t, at) then Some((keys[t].user, Until(View(), t, later))) else None
    {
      if t !in keys || keys[t].expiry <= at {
        return None;
      }
      var user := keys[t].user;
      if later < keys[t].expiry {
        found := Some((user, later + WholeSeconds(keys[t].expiry - later)));
      } else {
        found := Some((user, later - 1));
      }
    }

    method DeleteTokenByToken(at: Time, later: Time, t: Token)
      modifies this
      ensures View() == if Live(old(View()), t, at) then Drop(old(View()), later, old(keys)[t].user, t) else old(View())
    {
      if t !in keys || keys[t].expiry <= at {
        return;
      }
      DropToken(later, keys[t].user, t);
    }

    /** Deletes the tokens one by one, then the set. */
    method DeleteTokenByUserID(at: Time, user: UserId)
      modifies this
      ensures var tokens := Members(old(View()), user, at);
              View() == if tokens == {} then old(View()) else Revoke(old(View()), user, tokens)
    {
      var tokens := Members(View(), user, at);
      if tokens == {} {
        return;
      }
      var rest := tokens;
      while rest != {}
        invariant rest <= tokens
        invariant index == old(index)
        invariant keys == old(keys) - (tokens - rest)
        decreases |rest|
      {
        var t :| t in rest;
        keys := keys - {t};
        rest := rest - {t};
      }
      index := index - {user};
    }

    /** Looks the owner up, computes the time to live, and runs the pipeline. */
    method RotateRefreshToken(at: Time, middle: Time, later: Time, from: Token, to: Token, expiresAt: Time)
      returns (r: Result<()>)
      modifies this
      ensures r == if !Live(old(View()), from, at) then Err(NotFound)
                   else if expiresAt <= middle then Err(BadRequest)
                   else Ok(())
      ensures View() == if r.Err? then old(View())
                        else Exchange(old(View()), later, old(keys)[from].user, from, to, expiresAt - middle)
    {
      if from !in keys || keys[from].expiry <= at {
        return Err(NotFound);
      }
      var user := keys[from].user;
      var ttl := expiresAt - middle;
      if ttl <= 0 {
        return Err(BadRequest);
      }
      DropToken(later, user, from);
      PutToken(later, user, to, ttl);
      r := Ok(());
    }
  }

  class AuthService {
    const repository: TokenRepository
    const lifetime: nat

    constructor (repository: TokenRepository, lifetime: nat)
      ensures this.repository == repository && this.lifetime == lifetime
    {
      this.repository := repository;
      this.lifetime := lifetime;
    }

    ghost function At(stage: Stage): Config
      reads repository
    {
      Config(repository.View(), stage)
    }

    /** The end of registering and of logging in. */
    method SaveSession(now: Time, user: UserId, username: string, email: string, delays: seq<nat>)
      returns (r: Result<Token>)
      requires |delays| == 5
      modifies repository
      ensures At(Finished(if r.Ok? then Ok(Some(r.value)) else Err(r.error)))
              == Alone(old(At(Begun)), now, Login(user, username, email), delays, lifetime)
      ensures r.Ok? <==> delays[3] < lifetime
      ensures r.Ok? ==>
                var at := now + delays[0] + delays[1] + delays[2] + delays[3] + delays[4];
                && Issued(r.value, user, username, email, now + delays[0], now + delays[0] + delays[1] + lifetime)
                && Saved(old(repository.View()), repository.View(), user, r.value, at, lifetime - delays[3], {})
      ensures r.Err? ==> r.error == BadRequest && repository.View() == old(repository.View())
    {
      LoginOutcome(repository.View(), now, user, username, email, delays, lifetime);
      ghost var request := Login(user, username, email);
      var t1 := now + delays[0];
      var t2 := t1 + delays[1];
      ghost var c1, c2 := TwoSteps(At(Begun), now, request, delays, lifetime);
      var t := Issue(user, username, email, t1, t2 + lifetime);
      r := Save(t2, user, username, email, t, delays[2..]);
    }

    method Save(now: Time, user: UserId, username: string, email: string, t: Token, delays: seq<nat>)
      returns (r: Result<Token>)
      requires |delays| == 3
      modifies repository
      ensures At(Finished(if r.Ok? then Ok(Some(r.value)) else Err(r.error)))
              == Alone(old(At(Minted(t))), now, Login(user, username, email), delays, lifetime)
    {
      ghost var request := Login(user, username, email);
      var t1 := now + delays[0];
      var t2 := t1 + delays[1];
      var t3 := t2 + delays[2];
      ghost var c1, c2, c3 := ThreeSteps(At(Minted(t)), now, request, delays, lifetime);
      var saved := repository.SaveRefreshToken(t2, t3, user, t, t1 + lifetime);
      if saved.Err? {
        return Err(saved.error);
      }
      r := Ok(t);
    }

    /** The lookup and the first clock reading. */
    method Refresh(now: Time, t: Token, d: seq<nat>) returns (r: Result<Token>)
      requires |d| == 9
      modifies repository
      ensures At(Finished(if r.Ok? then Ok(Some(r.value)) else Err(r.error)))
              == Alone(old(At(Begun)), now, Request.Refresh(t), d, lifetime)
      ensures r.Ok? ==>
                var t3 := now + d[0] + d[1] + d[2]; var t6 := t3 + d[3] + d[4] + d[5]; var t8 := t6 + d[6] + d[7];
                && t in old(repository.keys)
                && Issued(r.value, t.user, t.username, t.email, t3 + d[3] + d[4], t6 + lifetime)
                && Saved(old(repository.View()), repository.View(), old(repository.keys)[t].user, r.value, t8 + d[8],
                         t3 + lifetime - t8, {t})
      ensures r.Err? ==> repository.View() == old(repository.View())
    {
      RefreshOutcome(repository.View(), now, t, d, lifetime);
      ghost var request := Request.Refresh(t);
      var t1 := now + d[0];
      var t2 := t1 + d[1];
      var t3 := t2 + d[2];
      ghost var c1, c2, c3 := ThreeSteps(At(Begun), now, request, d, lifetime);
      var found := repository.FindTokenByToken(t1, t2, t);
      if found.None? {
        return Err(InvalidToken);
      }
      if found.value.1 < t3 {
        return Err(TokenExpired);
      }
      r := Renew(t3, t, t3 + lifetime, d[3..]);
    }

    /** The signature and the new token. */
    method Renew(now: Time, t: Token, expiresAt: Time, d: seq<nat>) returns (r: Result<Token>)
      requires |d| == 6
      modifies repository
      ensures At(Finished(if r.Ok? then Ok(Some(r.value)) else Err(r.error)))
              == Alone(old(At(Checked(expiresAt))), now, Request.Refresh(t), d, lifetime)
    {
      ghost var request := Request.Refresh(t);
      var t1 := now + d[0];
      var t2 := t1 + d[1];
      var t3 := t2 + d[2];
      ghost var c1, c2, c3 := ThreeSteps(At(Checked(expiresAt)), now, request, d, lifetime);
      if t.expiresAt * SECOND <= t1 {
        return Err(InvalidToken);
      }
      r := Rotate(t3, t, Issue(t.user, t.username, t.email, t2, t3 + lifetime), expiresAt, d[3..]);
    }

    /** The rotation. */
    method Rotate(now: Time, t: Token, to: Token, expiresAt: Time, d: seq<nat>) returns (r: Result<Token>)
      requires |d| == 3
      modifies repository
      ensures At(Finished(if r.Ok? then Ok(Some(r.value)) else Err(r.error)))
              == Alone(old(At(Renewed(to, expiresAt))), now, Request.Refresh(t), d, lifetime)
    {
      ghost var request := Request.Refresh(t);
      var t1 := now + d[0];
      var t2 := t1 + d[1];
      var t3 := t2 + d[2];
      ghost var c1, c2, c3 := ThreeSteps(At(Renewed(to, expiresAt)), now, request, d, lifetime);
      var rotated := repository.RotateRefreshToken(t1, t2, t3, t, to, expiresAt);
      if rotated.Err? {
        return Err(rotated.error);
      }
      r := Ok(to);
    }

    method Logout(now: Time, t: Token, delays: seq<nat>)
      requires |delays| == 2
      modifies repository
      ensures At(DONE) == Alone(old(At(Begun)), now, Request.Logout(t), delays, lifetime)
      ensures t in old(repository.keys) && now + delays[0] < old(repository.keys)[t].expiry ==>
                && t !in repository.keys
                && Dropped(old(repository.View()), repository.View(), old(repository.keys)[t].user, t,
                           now + delays[0] + delays[1])
      ensures t !in old(repository.keys) || old(repository.keys)[t].expiry <= now + delays[0] ==>
                repository.View() == old(repository.View())
    {
      LogoutOutcome(repository.View(), now, t, delays, lifetime);
      ghost var c1, c2 := TwoSteps(At(Begun), now, Request.Logout(t), delays, lifetime);
      repository.DeleteTokenByToken(now + delays[0], now + delays[0] + delays[1], t);
    }

    method LogoutAll(now: Time, user: UserId, delays: seq<nat>)
      requires |delays| == 2
      modifies repository
      ensures At(DONE) == Alone(old(At(Begun)), now, Request.LogoutAll(user), delays, lifetime)
      ensures var read := now + delays[0];
              if HoldsAny(old(repository.View()), user, read)
              then Emptied(old(repository.View()), repository.View(), user, read)
              else repository.View() == old(repository.View())
    {
      LogoutAllOutcome(repository.View(), now, user, delays, lifetime);
      ghost var c1, c2 := TwoSteps(At(Begun), now, Request.LogoutAll(user), delays, lifetime);
      repository.DeleteTokenByUserID(now + delays[0], user);
    }
  }
}
