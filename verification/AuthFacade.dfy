/** The customer authentication facade over its tables, each method proved to be
    one step of the state machine in RefreshTokens. */
module AuthFacades {
  import opened Options
  import opened RefreshTokens

  class AuthFacade {
    const cfg: Config
    var customers: map<Id, Customer>
    var denylist: Denylist
    ghost var clock: int
    ghost var issued: seq<Issue>

    ghost function Abs(): State
      reads this
    {
      State(clock, customers, denylist, issued)
    }

    constructor (cfg: Config, ghost start: int)
      ensures this.cfg == cfg && Initial(Abs())
    {
      this.cfg := cfg;
      customers, denylist, clock, issued := map[], map[], start, [];
    }

    // ---- denylist access ----

    method Revoke(key: Key, row: Row)
      modifies this`denylist
      ensures denylist == RefreshTokens.Revoke(old(denylist), key, row)
    {
      if key !in denylist {
        denylist := denylist[key := row];
      }
    }

    method PruneExpired(now: int) returns (removed: nat)
      modifies this`denylist, this`clock
      ensures Abs() == Step(cfg, old(Abs()), PruneEvent(now)).0
      ensures removed == |old(denylist)| - |denylist|
      ensures forall k :: k in old(denylist) && k !in denylist ==> 0 < old(denylist)[k].expiresAt < now
    {
      clock := now;
      var expired := set k | k in denylist && 0 < denylist[k].expiresAt < now;
      removed := |expired|;
      var kept := denylist - expired;
      assert kept == RefreshTokens.PruneExpired(denylist, now);
      assert denylist.Keys == kept.Keys + expired && kept.Keys !! expired;
      denylist := kept;
    }

    // ---- token service ----

    method Issue(now: int, customer: Id, family: Option<Id>, ghost parent: Option<Id>, ids: Fresh) returns (reply: Reply)
      requires clock == now
      modifies this`issued
      ensures (Abs(), reply) == IssuePair(cfg, old(Abs()), customer, family, parent, ids)
    {
      var fid := if family.Some? then family.value else ids.family;
      var access := Claims(customer, CustomerToken, ids.access, None, now + 60 * cfg.accessMinutes);
      var refresh := Claims(customer, RefreshToken, ids.refresh, Some(fid), now + 60 * cfg.refreshMinutes);
      issued := issued + [RefreshTokens.Issue(access, None)] + [RefreshTokens.Issue(refresh, parent)];
      reply := Tokens(access, refresh);
    }

    // ---- the facade ----

    method Signup(now: int, customer: Id, hash: nat, ids: Fresh) returns (reply: Reply)
      modifies this
      ensures (Abs(), reply) == Step(cfg, old(Abs()), SignupEvent(now, customer, hash, ids))
    {
      clock := now;
      customers := customers[customer := Customer(hash, false)];
      reply := Issue(now, customer, None, None, ids);
    }

    // A sign-in whose password was accepted; Lockout models that decision.
    method Login(now: int, customer: Id, ids: Fresh) returns (reply: Reply)
      modifies this
      ensures (Abs(), reply) == Step(cfg, old(Abs()), LoginEvent(now, customer, ids))
    {
      clock := now;
      if customer !in customers {
        return Refused(UnknownCustomer);
      }
      reply := Issue(now, customer, None, None, ids);
    }

    method Refresh(now: int, token: Presented, ids: Fresh) returns (reply: Reply)
      modifies this
      ensures (Abs(), reply) == Step(cfg, old(Abs()), RefreshEvent(now, token, ids))
    {
      clock := now;
      if token.Garbage? || token.claims.exp <= now {
        return Refused(InvalidToken);
      }
      var c := token.claims;
      if c.typ != RefreshToken {
        return Refused(WrongType);
      }
      if c.fid.Some? && Family(c.fid.value) in denylist {
        return Refused(FamilyRevoked);
      }
      if Jti(c.jti) in denylist {
        if c.fid.Some? {
          Revoke(Family(c.fid.value), Row(c.exp, Reused, c.fid));
        }
        return Refused(TokenRevoked);
      }
      if c.sub !in customers {
        return Refused(UnknownCustomer);
      }
      Revoke(Jti(c.jti), Row(c.exp, Rotated, c.fid));
      reply := Issue(now, c.sub, c.fid, Some(c.jti), ids);
    }

    method Logout(now: int, token: Presented) returns (reply: Reply)
      modifies this
      ensures (Abs(), reply) == Step(cfg, old(Abs()), LogoutEvent(now, token))
    {
      clock := now;
      reply := Done;
      if token.Garbage? || token.claims.exp <= now {
        return;
      }
      var c := token.claims;
      Revoke(Jti(c.jti), Row(c.exp, LoggedOut, c.fid));
      if c.fid.Some? {
        Revoke(Family(c.fid.value), Row(c.exp, LoggedOut, c.fid));
      }
    }

    method SendAction(now: int, customer: Id, typ: TokenType, jti: Id) returns (reply: Reply)
      modifies this
      ensures (Abs(), reply) == Step(cfg, old(Abs()), SendActionEvent(now, customer, typ, jti))
    {
      clock := now;
      if customer !in customers {
        return if typ == VerifyToken then Refused(UnknownCustomer) else Done;
      }
      reply := Done;
      if typ != VerifyToken || !customers[customer].emailVerified {
        issued := issued + [RefreshTokens.Issue(Claims(customer, typ, jti, None, now + 60 * ActionMinutes(cfg, typ)), None)];
      }
    }

    method ConsumeToken(now: int, token: Presented, typ: TokenType) returns (claims: Option<Claims>)
      requires clock == now
      ensures claims == Consume(Abs(), token, typ)
    {
      if token.Garbage? || token.claims.exp <= now || token.claims.typ != typ || Jti(token.claims.jti) in denylist {
        return None;
      }
      return Some(token.claims);
    }

    method ResetPassword(now: int, token: Presented, hash: nat) returns (reply: Reply)
      modifies this
      ensures (Abs(), reply) == Step(cfg, old(Abs()), ResetPasswordEvent(now, token, hash))
    {
      clock := now;
      var claims := ConsumeToken(now, token, ResetToken);
      if claims.None? {
        return Refused(InvalidToken);
      }
      var c := claims.value;
      if c.sub !in customers {
        return Refused(UnknownCustomer);
      }
      customers := customers[c.sub := customers[c.sub].(passwordHash := hash)];
      Revoke(Jti(c.jti), Row(c.exp, PasswordWasReset, None));
      reply := Done;
    }

    method VerifyEmail(now: int, token: Presented) returns (reply: Reply)
      modifies this
      ensures (Abs(), reply) == Step(cfg, old(Abs()), VerifyEmailEvent(now, token))
    {
      clock := now;
      var claims := ConsumeToken(now, token, VerifyToken);
      if claims.None? {
        return Refused(InvalidToken);
      }
      var c := claims.value;
      if c.sub !in customers {
        return Refused(UnknownCustomer);
      }
      customers := customers[c.sub := customers[c.sub].(emailVerified := true)];
      Revoke(Jti(c.jti), Row(c.exp, EmailWasVerified, None));
      reply := Done;
    }
  }
}
