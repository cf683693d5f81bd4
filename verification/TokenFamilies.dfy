/** What holds over every run of the token protocol: families are linear chains,
    every token is used at most once, and how long a family marker binds. */
module TokenFamilies {
  import opened Options
  import opened RefreshTokens

  // The token that a step exchanged or consumed with success.
  function Used(cfg: Config, s: State, e: Event): Option<Claims> {
    var reply := Step(cfg, s, e).1;
    match e
    case RefreshEvent(_, token, _) => if reply.Tokens? && token.Signed? then Some(token.claims) else None
    case ResetPasswordEvent(_, token, _) => if reply.Done? && token.Signed? then Some(token.claims) else None
    case VerifyEmailEvent(_, token) => if reply.Done? && token.Signed? then Some(token.claims) else None
    case _ => None
  }

  // Successful refreshes of family f along a run.
  function Refreshes(cfg: Config, s: State, es: seq<Event>, f: Id): nat
    decreases |es|
  {
    if es == [] then 0
    else (if Used(cfg, s, es[0]).Some? && Used(cfg, s, es[0]).value.fid == Some(f) then 1 else 0)
         + Refreshes(cfg, Next(cfg, s, es[0]), es[1..], f)
  }

  // Successful uses, of any kind, of the token with id j along a run.
  function Uses(cfg: Config, s: State, es: seq<Event>, j: Id): nat
    decreases |es|
  {
    if es == [] then 0
    else (if Used(cfg, s, es[0]).Some? && Used(cfg, s, es[0]).value.jti == j then 1 else 0)
         + Uses(cfg, Next(cfg, s, es[0]), es[1..], j)
  }

  // ---------------- single use ----------------

  lemma AppendFamilies(h: seq<Issue>, x: Issue, y: Issue, f: Id)
    ensures FamilyOf(h + [x] + [y], f)
         == FamilyOf(h, f) + (if x.claims.fid == Some(f) then [x] else []) + (if y.claims.fid == Some(f) then [y] else [])
  {
    FamilyAppend(h, x, f);
    FamilyAppend(h + [x], y, f);
  }

  lemma HistoryGrows(cfg: Config, s: State, e: Event)
    ensures s.issued <= Next(cfg, s, e).issued
    ensures s.now <= e.at ==> s.now <= Next(cfg, s, e).now == e.at
  {}

  // A denylist row goes only when its own token's time is past.
  lemma SpentStays(cfg: Config, s: State, e: Event, c: Claims)
    requires Inv(cfg, s) && Enabled(s, e) && Known(s.issued, Signed(c)) && Spent(s, c)
    ensures Spent(Next(cfg, s, e), c)
  {
    var k :| 0 <= k < |s.issued| && s.issued[k].claims == c;
    HistoryGrows(cfg, s, e);
  }

  lemma KnownStays(cfg: Config, s: State, e: Event, p: Presented)
    requires Known(s.issued, p)
    ensures Known(Next(cfg, s, e).issued, p)
  {
    HistoryGrows(cfg, s, e);
    var t := Next(cfg, s, e);
    if p.Signed? {
      var k :| 0 <= k < |s.issued| && s.issued[k].claims == p.claims;
      assert t.issued[k].claims == p.claims;
    }
  }

  lemma UseSpends(cfg: Config, s: State, e: Event)
    requires Inv(cfg, s) && Enabled(s, e) && Used(cfg, s, e).Some?
    ensures !Spent(s, Used(cfg, s, e).value) && Spent(Next(cfg, s, e), Used(cfg, s, e).value)
    ensures Known(s.issued, Signed(Used(cfg, s, e).value))
  {}

  // Same id, same token: ids are unique in the history.
  lemma SameJti(h: seq<Issue>, a: Claims, b: Claims)
    requires UniqueIds(h) && Known(h, Signed(a)) && Known(h, Signed(b)) && a.jti == b.jti
    ensures a == b
  {
    var i :| 0 <= i < |h| && h[i].claims == a;
    var k :| 0 <= k < |h| && h[k].claims == b;
  }

  // Once a token is spent it is never accepted again, whatever prunes interleave.
  lemma {:induction false} SpentNeverUsed(cfg: Config, s: State, es: seq<Event>, c: Claims)
    requires Inv(cfg, s) && ValidRun(cfg, s, es) && Known(s.issued, Signed(c)) && Spent(s, c)
    ensures Uses(cfg, s, es, c.jti) == 0
    ensures Spent(Run(cfg, s, es), c)
    decreases |es|
  {
    hide Inv;
    if es != [] {
      var e := es[0];
      if Used(cfg, s, e).Some? && Used(cfg, s, e).value.jti == c.jti {
        UseSpends(cfg, s, e);
        InvParts(cfg, s);
        SameJti(s.issued, c, Used(cfg, s, e).value);
      }
      SpentStays(cfg, s, e, c);
      KnownStays(cfg, s, e, Signed(c));
      StepKeepsInv(cfg, s, e);
      SpentNeverUsed(cfg, Next(cfg, s, e), es[1..], c);
    }
  }

  lemma {:induction false} UsedAtMostOnce(cfg: Config, s: State, es: seq<Event>, j: Id)
    requires Inv(cfg, s) && ValidRun(cfg, s, es)
    ensures Uses(cfg, s, es, j) <= 1
    decreases |es|
  {
    hide Inv;
    if es != [] {
      var e := es[0];
      StepKeepsInv(cfg, s, e);
      if Used(cfg, s, e).Some? && Used(cfg, s, e).value.jti == j {
        var c := Used(cfg, s, e).value;
        UseSpends(cfg, s, e);
        KnownStays(cfg, s, e, Signed(c));
        SpentNeverUsed(cfg, Next(cfg, s, e), es[1..], c);
      } else {
        UsedAtMostOnce(cfg, Next(cfg, s, e), es[1..], j);
      }
    }
  }

  // Every refresh, reset or verification token is honoured at most once over
  // every run from the empty database.
  lemma SingleUse(cfg: Config, s0: State, es: seq<Event>, j: Id)
    requires Initial(s0) && ValidRun(cfg, s0, es)
    ensures Uses(cfg, s0, es, j) <= 1
  {
    hide Inv;
    InitialInv(cfg, s0);
    UsedAtMostOnce(cfg, s0, es, j);
  }

  // A listed token stays refused over every later run, prunes included.
  lemma RevokedStaysRefused(cfg: Config, s0: State, before: seq<Event>, after: seq<Event>, j: Id)
    requires Initial(s0) && ValidRun(cfg, s0, before) && ValidRun(cfg, Run(cfg, s0, before), after)
    requires Jti(j) in Run(cfg, s0, before).denylist
    ensures Uses(cfg, Run(cfg, s0, before), after, j) == 0
  {
    InitialInv(cfg, s0);
    RunKeepsInv(cfg, s0, before);
    var s := Run(cfg, s0, before);
    assert !FreshJti(s.issued, j);
    var i :| 0 <= i < |s.issued| && s.issued[i].claims.jti == j;
    SpentNeverUsed(cfg, s, after, s.issued[i].claims);
  }

  // A token that was logged out before its time, of whatever type and with or
  // without a family, is never accepted again.
  lemma LoggedOutIsNeverUsed(cfg: Config, s0: State, before: seq<Event>, e: Event, after: seq<Event>)
    requires Initial(s0) && ValidRun(cfg, s0, before) && Enabled(Run(cfg, s0, before), e)
    requires e.LogoutEvent? && e.token.Signed? && e.at < e.token.claims.exp
    requires ValidRun(cfg, Next(cfg, Run(cfg, s0, before), e), after)
    ensures Uses(cfg, Next(cfg, Run(cfg, s0, before), e), after, e.token.claims.jti) == 0
  {
    hide Inv;
    InitialInv(cfg, s0);
    RunKeepsInv(cfg, s0, before);
    var s := Run(cfg, s0, before);
    StepKeepsInv(cfg, s, e);
    KnownStays(cfg, s, e, e.token);
    SpentNeverUsed(cfg, Next(cfg, s, e), after, e.token.claims);
  }

  // An existing account changes only through a good action token of its own: the
  // password through a reset token, the verified mark through a verification token.
  lemma AccountsChangeByToken(cfg: Config, s: State, e: Event, c: Id)
    requires Enabled(s, e) && c in s.customers
    ensures c in Next(cfg, s, e).customers
    ensures var before, after := s.customers[c], Next(cfg, s, e).customers[c];
            before != after ==>
              && Used(cfg, s, e).Some? && Used(cfg, s, e).value.sub == c
              && Live(s.(now := e.at), Used(cfg, s, e).value)
              && (if e.ResetPasswordEvent?
                  then Used(cfg, s, e).value.typ == ResetToken && after == before.(passwordHash := e.hash)
                  else e.VerifyEmailEvent? && Used(cfg, s, e).value.typ == VerifyToken && after == before.(emailVerified := true))
    // And a good token does take effect.
    ensures e.ResetPasswordEvent? && Used(cfg, s, e).Some? && Used(cfg, s, e).value.sub == c ==>
              Next(cfg, s, e).customers[c].passwordHash == e.hash
    ensures e.VerifyEmailEvent? && Used(cfg, s, e).Some? && Used(cfg, s, e).value.sub == c ==>
              Next(cfg, s, e).customers[c].emailVerified
  {}

  // What a call takes a token for.
  function Purpose(e: Event): Option<TokenType> {
    match e
    case RefreshEvent(_, _, _) => Some(RefreshToken)
    case ResetPasswordEvent(_, _, _) => Some(ResetToken)
    case VerifyEmailEvent(_, _) => Some(VerifyToken)
    case _ => None
  }

  ghost predicate Acceptable(s: State, c: Claims, typ: TokenType) {
    && c.typ == typ && Live(s, c) && c.sub in s.customers
    && (typ == RefreshToken && c.fid.Some? ==> Family(c.fid.value) !in s.denylist)
  }

  // A token is honoured exactly for its own purpose while it is live: an access
  // token never refreshes, a refresh token never resets a password.
  lemma HonouredIff(cfg: Config, s: State, e: Event)
    ensures Used(cfg, s, e).Some? <==>
              Purpose(e).Some? && e.token.Signed? && Acceptable(s.(now := e.at), e.token.claims, Purpose(e).value)
  {}

  function Lifetime(cfg: Config, typ: TokenType): int {
    match typ
    case CustomerToken => cfg.accessMinutes
    case RefreshToken => cfg.refreshMinutes
    case ResetToken => cfg.resetMinutes
    case VerifyToken => cfg.verifyMinutes
    case OtherToken => 0
  }

  // Every token that the service signs lives for the minutes set for its type.
  lemma TokensLiveAsConfigured(cfg: Config, s: State, e: Event)
    requires Enabled(s, e) && !e.ForeignEvent?
    ensures forall i :: |s.issued| <= i < |Next(cfg, s, e).issued| ==>
              var c := Next(cfg, s, e).issued[i].claims;
              c.exp == e.at + 60 * Lifetime(cfg, c.typ)
  {}

  // What a step may sign, from the event alone: tokens of the account that it names,
  // with its own new ids, and a refresh token in the family of the token exchanged.
  predicate SignedBy(e: Event, c: Claims) {
    match e
    case SignupEvent(_, customer, _, ids) => SignedPair(customer, ids, Some(ids.family), c)
    case LoginEvent(_, customer, ids) => SignedPair(customer, ids, Some(ids.family), c)
    case RefreshEvent(_, token, ids) =>
      token.Signed?
      && SignedPair(token.claims.sub, ids, if token.claims.fid.Some? then token.claims.fid else Some(ids.family), c)
    case SendActionEvent(_, customer, typ, jti) => c.sub == customer && c.typ == typ && c.jti == jti && c.fid.None?
    case ForeignEvent(_, claims) => c == claims
    case _ => false
  }

  predicate SignedPair(customer: Id, ids: Fresh, family: Option<Id>, c: Claims) {
    && c.sub == customer
    && ((c.typ == CustomerToken && c.jti == ids.access && c.fid.None?)
        || (c.typ == RefreshToken && c.jti == ids.refresh && c.fid == family))
  }

  lemma StepSigns(cfg: Config, s: State, e: Event)
    ensures forall i :: |s.issued| <= i < |Next(cfg, s, e).issued| ==> SignedBy(e, Next(cfg, s, e).issued[i].claims)
  {}

  lemma {:induction false} HistoryKept(cfg: Config, s: State, es: seq<Event>)
    ensures s.issued <= Run(cfg, s, es).issued
    decreases |es|
  {
    hide Next;
    if es != [] {
      HistoryGrows(cfg, s, es[0]);
      HistoryKept(cfg, Next(cfg, s, es[0]), es[1..]);
    }
  }

  // Over every run: each token of the history was signed at some step for the account
  // that the step names, with the ids drawn for it; and unless it is another service's it
  // lives from the time of that step for the minutes set for its type.
  lemma {:induction false} EveryTokenExpires(cfg: Config, s: State, es: seq<Event>, i: nat) returns (j: nat)
    requires ValidRun(cfg, s, es) && |s.issued| <= i < |Run(cfg, s, es).issued|
    ensures j < |es| && SignedBy(es[j], Run(cfg, s, es).issued[i].claims)
    ensures var c := Run(cfg, s, es).issued[i].claims;
            if es[j].ForeignEvent? then c == es[j].claims else c.exp == es[j].at + 60 * Lifetime(cfg, c.typ)
    decreases |es|
  {
    hide Next;
    var t := Next(cfg, s, es[0]);
    HistoryGrows(cfg, s, es[0]);
    HistoryKept(cfg, t, es[1..]);
    if i < |t.issued| {
      j := 0;
      StepSigns(cfg, s, es[0]);
      if es[0].ForeignEvent? { ForeignSigns(cfg, s, es[0]); } else { TokensLiveAsConfigured(cfg, s, es[0]); }
    } else {
      var k := EveryTokenExpires(cfg, t, es[1..], i);
      j := k + 1;
    }
  }

  lemma ForeignSigns(cfg: Config, s: State, e: Event)
    requires e.ForeignEvent?
    ensures Next(cfg, s, e).issued == s.issued + [Issue(e.claims, None)]
  {}

  // ---------------- what each call answers ----------------

  // The two tokens of an account that signs in, and the family they start.
  ghost predicate OpensFamily(cfg: Config, s: State, t: State, at: int, customer: Id, ids: Fresh, reply: Reply) {
    && reply == Tokens(Claims(customer, CustomerToken, ids.access, None, at + 60 * cfg.accessMinutes),
                       Claims(customer, RefreshToken, ids.refresh, Some(ids.family), at + 60 * cfg.refreshMinutes))
    && t.issued == s.issued + [Issue(reply.access, None), Issue(reply.refresh, None)]
    && FamilyOf(t.issued, ids.family) == [Issue(reply.refresh, None)]
    && t.denylist == s.denylist
  }

  lemma NewFamily(h: seq<Issue>, x: Issue, y: Issue, f: Id)
    requires FreshFamily(h, f) && x.claims.fid.None? && y.claims.fid == Some(f)
    ensures FamilyOf(h + [x] + [y], f) == [y] && h + [x] + [y] == h + [x, y]
  {
    AppendFamilies(h, x, y, f);
    if FamilyOf(h, f) != [] { var k := FamilyElement(h, f, 0); }
  }

  // A login of an account that exists always gets tokens, its own, and a family of one;
  // it is refused only for an account that does not exist.
  lemma LoginAnswers(cfg: Config, s: State, e: Event)
    requires Enabled(s, e) && e.LoginEvent?
    ensures var (t, reply) := Step(cfg, s, e);
            && t.customers == s.customers && t.now == e.at
            && (if e.customer in s.customers then OpensFamily(cfg, s, t, e.at, e.customer, e.ids, reply)
                else reply == Refused(UnknownCustomer) && t == s.(now := e.at))
  {
    var access := Claims(e.customer, CustomerToken, e.ids.access, None, e.at + 60 * cfg.accessMinutes);
    var refresh := Claims(e.customer, RefreshToken, e.ids.refresh, Some(e.ids.family), e.at + 60 * cfg.refreshMinutes);
    NewFamily(s.issued, Issue(access, None), Issue(refresh, None), e.ids.family);
  }

  // A sign-up opens an unverified account with the given password and signs it in.
  lemma SignupAnswers(cfg: Config, s: State, e: Event)
    requires Enabled(s, e) && e.SignupEvent?
    ensures var (t, reply) := Step(cfg, s, e);
            && t.customers == s.customers[e.customer := Customer(e.hash, false)] && t.now == e.at
            && OpensFamily(cfg, s, t, e.at, e.customer, e.ids, reply)
  {
    var access := Claims(e.customer, CustomerToken, e.ids.access, None, e.at + 60 * cfg.accessMinutes);
    var refresh := Claims(e.customer, RefreshToken, e.ids.refresh, Some(e.ids.family), e.at + 60 * cfg.refreshMinutes);
    NewFamily(s.issued, Issue(access, None), Issue(refresh, None), e.ids.family);
  }

  // A reset request answers alike whether the account exists or not, and only an
  // account that exists gets a token; a verification is for an unverified account.
  lemma SendActionAnswers(cfg: Config, s: State, e: Event)
    requires Enabled(s, e) && e.SendActionEvent?
    ensures var (t, reply) := Step(cfg, s, e);
            && t.customers == s.customers && t.denylist == s.denylist
            && (e.typ == ResetToken ==> reply == Done)
            && (e.typ == VerifyToken ==> (reply == Done <==> e.customer in s.customers) && (reply == Done || reply == Refused(UnknownCustomer)))
            && (|t.issued| == |s.issued| + 1 <==>
                  e.customer in s.customers && (e.typ == ResetToken || !s.customers[e.customer].emailVerified))
            && (|t.issued| != |s.issued| + 1 ==> t.issued == s.issued)
  {}

  // Why a refresh is refused: the first of these that applies.
  lemma RefreshAnswers(cfg: Config, s: State, e: Event)
    requires e.RefreshEvent?
    ensures var (t, reply) := Step(cfg, s, e);
            && (reply.Tokens? || reply.Refused?)
            && (e.token.Garbage? || e.token.claims.exp <= e.at ==> reply == Refused(InvalidToken))
            && (e.token.Signed? && e.at < e.token.claims.exp ==>
                  var c := e.token.claims;
                  && (reply == Refused(WrongType) <==> c.typ != RefreshToken)
                  && (reply == Refused(FamilyRevoked) <==>
                        c.typ == RefreshToken && c.fid.Some? && Family(c.fid.value) in s.denylist)
                  && (reply == Refused(TokenRevoked) <==>
                        c.typ == RefreshToken && !(c.fid.Some? && Family(c.fid.value) in s.denylist) && Jti(c.jti) in s.denylist)
                  && (reply == Refused(UnknownCustomer) <==>
                        c.typ == RefreshToken && !(c.fid.Some? && Family(c.fid.value) in s.denylist)
                        && Jti(c.jti) !in s.denylist && c.sub !in s.customers)
                  && reply != Refused(InvalidToken))
            && t.customers == s.customers
  {}

  // A logout always answers alike.  An unexpired token is listed from then on, and so is
  // its family if it has one; with any other token nothing changes.
  lemma LogoutAnswers(cfg: Config, s: State, e: Event)
    requires e.LogoutEvent?
    ensures var (t, reply) := Step(cfg, s, e);
            && reply == Done && t.issued == s.issued && t.customers == s.customers
            && (forall key <- s.denylist :: key in t.denylist && t.denylist[key] == s.denylist[key])
            && (if e.token.Signed? && e.at < e.token.claims.exp
                then var c := e.token.claims;
                     t.denylist.Keys == s.denylist.Keys + {Jti(c.jti)} + (if c.fid.Some? then {Family(c.fid.value)} else {})
                else t.denylist == s.denylist)
  {}

  // Why an action token is refused, and that a refusal changes nothing.
  lemma ActionAnswers(cfg: Config, s: State, e: Event)
    requires e.ResetPasswordEvent? || e.VerifyEmailEvent?
    ensures var (t, reply) := Step(cfg, s, e);
            var good := e.token.Signed? && Live(s.(now := e.at), e.token.claims) && Purpose(e) == Some(e.token.claims.typ);
            && (reply == Refused(InvalidToken) <==> !good)
            && (reply == Refused(UnknownCustomer) <==> good && e.token.claims.sub !in s.customers)
            && (reply == Done <==> good && e.token.claims.sub in s.customers)
            && (reply != Done ==> t == s.(now := e.at))
            && t.issued == s.issued
  {}

  // What a step lists, and why: the token that a refresh or an action used up, the
  // family of a reused one, and the token and the family that log out.
  lemma NewRows(cfg: Config, s: State, e: Event, key: Key)
    requires key !in s.denylist && key in Next(cfg, s, e).denylist
    ensures e.RefreshEvent? || e.LogoutEvent? || e.ResetPasswordEvent? || e.VerifyEmailEvent?
    ensures e.token.Signed? && e.at < e.token.claims.exp
    ensures var c, row := e.token.claims, Next(cfg, s, e).denylist[key];
            && row.expiresAt == c.exp
            && (key == Jti(c.jti) || (c.fid.Some? && key == Family(c.fid.value)))
            && (e.LogoutEvent? ==> row.reason == LoggedOut && row.family == c.fid)
            && (e.ResetPasswordEvent? ==> key == Jti(c.jti) && row.reason == PasswordWasReset && row.family == None)
            && (e.VerifyEmailEvent? ==> key == Jti(c.jti) && row.reason == EmailWasVerified && row.family == None)
            && (e.RefreshEvent? ==> row.family == c.fid && row.reason == (if key == Jti(c.jti) then Rotated else Reused))
            && (e.RefreshEvent? ==> (key == Jti(c.jti) <==> Step(cfg, s, e).1.Tokens?))
  {}

  // The password that the last honoured reset token of account c set along a run.
  function LastPassword(cfg: Config, s: State, es: seq<Event>, c: Id, start: nat): nat
    decreases |es|
  {
    if es == [] then start
    else
      var used := Used(cfg, s, es[0]);
      LastPassword(cfg, Next(cfg, s, es[0]), es[1..], c,
                   if es[0].ResetPasswordEvent? && used.Some? && used.value.sub == c then es[0].hash else start)
  }

  // Whether a verification token of account c was honoured along a run.
  predicate EverVerified(cfg: Config, s: State, es: seq<Event>, c: Id)
    decreases |es|
  {
    es != [] &&
    var used := Used(cfg, s, es[0]);
    (es[0].VerifyEmailEvent? && used.Some? && used.value.sub == c) || EverVerified(cfg, Next(cfg, s, es[0]), es[1..], c)
  }

  // Over every run an account is what its own honoured action tokens made of it: the
  // password is the one set by the last of its reset tokens, and it is verified
  // exactly if it was, or one of its verification tokens was honoured.
  lemma {:induction false} AccountFollowsItsTokens(cfg: Config, s: State, es: seq<Event>, c: Id)
    requires ValidRun(cfg, s, es) && c in s.customers
    ensures c in Run(cfg, s, es).customers
    ensures var before, after := s.customers[c], Run(cfg, s, es).customers[c];
            && after.passwordHash == LastPassword(cfg, s, es, c, before.passwordHash)
            && (after.emailVerified <==> before.emailVerified || EverVerified(cfg, s, es, c))
    decreases |es|
  {
    hide Used, Next;
    if es != [] {
      AccountsChangeByToken(cfg, s, es[0], c);
      AccountFollowsItsTokens(cfg, Next(cfg, s, es[0]), es[1..], c);
    }
  }

  // ---------------- linear chains ----------------

  // The tokens that a step signs.
  function NewIssues(cfg: Config, s: State, e: Event): seq<Issue> {
    var reply := Step(cfg, s, e).1;
    if reply.Tokens? then
      [Issue(reply.access, None),
       Issue(reply.refresh, if e.RefreshEvent? && e.token.Signed? then Some(e.token.claims.jti) else None)]
    else if e.ForeignEvent? then [Issue(e.claims, None)]
    else if e.SendActionEvent? && e.customer in s.customers && !(e.typ == VerifyToken && s.customers[e.customer].emailVerified) then
      [Issue(Claims(e.customer, e.typ, e.jti, None, e.at + 60 * ActionMinutes(cfg, e.typ)), None)]
    else []
  }

  lemma StepIssues(cfg: Config, s: State, e: Event)
    ensures Next(cfg, s, e).issued == s.issued + NewIssues(cfg, s, e)
  {}

  lemma {:induction false} FamilyConcat(h: seq<Issue>, xs: seq<Issue>, f: Id)
    ensures FamilyOf(h + xs, f) == FamilyOf(h, f) + FamilyOf(xs, f)
  {
    if xs == [] {
      assert h + xs == h;
    } else {
      var n := |xs| - 1;
      assert h + xs == (h + xs[..n]) + [xs[n]] && xs == xs[..n] + [xs[n]];
      FamilyConcat(h, xs[..n], f);
      FamilyAppend(h + xs[..n], xs[n], f);
    }
  }

  lemma FamilyOfPair(x: Issue, y: Issue, f: Id)
    ensures FamilyOf([x], f) == if x.claims.fid == Some(f) then [x] else []
    ensures FamilyOf([x, y], f) == FamilyOf([x], f) + FamilyOf([y], f)
  {
    FamilyAppend([], x, f);
    assert [x] == [] + [x] && [x, y] == [x] + [y];
    FamilyConcat([x], [y], f);
  }

  lemma UsedFamilyIsKnown(cfg: Config, s: State, e: Event, f: Id)
    requires FamilyTokensOk(cfg, s) && Enabled(s, e)
    requires Used(cfg, s, e).Some? && Used(cfg, s, e).value.fid == Some(f)
    ensures e.RefreshEvent? && FamilyOf(s.issued, f) != []
  {
    var u := Used(cfg, s, e).value;
    var k :| 0 <= k < |s.issued| && s.issued[k].claims == u;
    var i := FamilyPosition(s.issued, f, k);
  }

  lemma OneRefresh(cfg: Config, s: State, e: Event, f: Id)
    ensures Refreshes(cfg, s, [e], f)
         == if Used(cfg, s, e).Some? && Used(cfg, s, e).value.fid == Some(f) then 1 else 0
  {
    assert [e][1..] == [];
  }

  // At most the second of the new tokens has a family: the one of the token it was
  // exchanged for, or a new one.
  lemma NewTokenFamilies(cfg: Config, s: State, e: Event)
    requires FamilyTokensOk(cfg, s) && Enabled(s, e)
    ensures var xs, u := NewIssues(cfg, s, e), Used(cfg, s, e);
            && |xs| <= 2
            && (|xs| >= 1 ==> xs[0].claims.fid.None?)
            && (u.Some? && u.value.fid.Some? ==> |xs| == 2 && xs[1].claims.fid == u.value.fid)
            && (|xs| == 2 && !(u.Some? && u.value.fid.Some?) ==>
                  xs[1].claims.fid.Some? && FreshFamily(s.issued, xs[1].claims.fid.value))
  {
    var u := Used(cfg, s, e);
    if u.Some? && u.value.fid.Some? { UsedFamilyIsKnown(cfg, s, e, u.value.fid.value); }
  }

  // Which new token belongs to family f: the one of a refresh of f, or of a new login.
  lemma NewIssueOfFamily(cfg: Config, s: State, e: Event, f: Id)
    requires FamilyTokensOk(cfg, s) && Enabled(s, e)
    ensures FamilyOf(s.issued, f) == [] ==> Refreshes(cfg, s, [e], f) == 0
    ensures FamilyOf(s.issued, f) != [] ==> |FamilyOf(NewIssues(cfg, s, e), f)| == Refreshes(cfg, s, [e], f)
    ensures |FamilyOf(NewIssues(cfg, s, e), f)| <= 1
  {
    OneRefresh(cfg, s, e, f);
    if Refreshes(cfg, s, [e], f) == 1 { UsedFamilyIsKnown(cfg, s, e, f); }
    NewTokenFamilies(cfg, s, e);
    NewFamilySize(s.issued, NewIssues(cfg, s, e), f);
  }

  lemma NewFamilySize(h: seq<Issue>, xs: seq<Issue>, f: Id)
    requires |xs| <= 2 && (|xs| >= 1 ==> xs[0].claims.fid.None?)
    ensures |FamilyOf(xs, f)| == if |xs| == 2 && xs[1].claims.fid == Some(f) then 1 else 0
    ensures FreshFamily(h, f) ==> FamilyOf(h, f) == []
  {
    if |xs| == 2 {
      FamilyOfPair(xs[0], xs[1], f);
      FamilyOfPair(xs[1], xs[0], f);
      assert xs == [xs[0], xs[1]];
    } else if |xs| == 1 {
      FamilyOfPair(xs[0], xs[0], f);
      assert xs == [xs[0]];
    }
    if FamilyOf(h, f) != [] {
      var k := FamilyElement(h, f, 0);
    }
  }

  // A step lengthens a family that exists by exactly the refresh it performs.
  lemma FamilyGrows(cfg: Config, s: State, e: Event, f: Id)
    requires Inv(cfg, s) && Enabled(s, e)
    ensures var fam, fam' := FamilyOf(s.issued, f), FamilyOf(Next(cfg, s, e).issued, f);
            && fam <= fam'
            && (fam != [] ==> |fam'| == |fam| + Refreshes(cfg, s, [e], f))
            && (fam == [] ==> |fam'| <= 1 && Refreshes(cfg, s, [e], f) == 0)
  {
    StepIssues(cfg, s, e);
    FamilyConcat(s.issued, NewIssues(cfg, s, e), f);
    NewIssueOfFamily(cfg, s, e, f);
  }

  lemma {:induction false} FamilyLength(cfg: Config, s: State, es: seq<Event>, f: Id)
    requires Inv(cfg, s) && ValidRun(cfg, s, es)
    ensures var fam, fam' := FamilyOf(s.issued, f), FamilyOf(Run(cfg, s, es).issued, f);
            && fam <= fam'
            && (fam != [] ==> |fam'| == |fam| + Refreshes(cfg, s, es, f))
            && (fam == [] && fam' != [] ==> |fam'| == 1 + Refreshes(cfg, s, es, f))
            && (fam' == [] ==> Refreshes(cfg, s, es, f) == 0)
    decreases |es|
  {
    hide Inv;
    if es != [] {
      FamilyGrows(cfg, s, es[0], f);
      assert Refreshes(cfg, s, [es[0]], f) + Refreshes(cfg, Next(cfg, s, es[0]), es[1..], f) == Refreshes(cfg, s, es, f) by {
        assert [es[0]][1..] == [];
      }
      StepKeepsInv(cfg, s, es[0]);
      FamilyLength(cfg, Next(cfg, s, es[0]), es[1..], f);
    }
  }

  // Family f as one line of tokens, of which only the newest can be live; and no
  // token at all has two successors.
  ghost predicate Linear(s: State, f: Id) {
    var fam := FamilyOf(s.issued, f);
    && Chain(fam)
    && (forall i :: 0 <= i < |fam| && Live(s, fam[i].claims) ==> i == |fam| - 1)
    && (forall i, j :: 0 <= i < j < |s.issued| && s.issued[i].parent.Some? ==> s.issued[i].parent != s.issued[j].parent)
  }

  lemma InvariantIsLinear(cfg: Config, s: State, f: Id)
    requires Inv(cfg, s)
    ensures Linear(s, f)
  {
    var fam := FamilyOf(s.issued, f);
    forall i | 0 <= i < |fam| && Live(s, fam[i].claims) ensures i == |fam| - 1 {
      if i + 1 < |fam| { OnlyLastUnspent(cfg, s, f, i); }
    }
  }

  // In every run a family is one linear chain: each token after the first was
  // exchanged for the one before it and lives at least as long, no token has two
  // successors, n refreshes give n + 1 tokens, and only the newest can be live.
  lemma FamilyIsLinear(cfg: Config, s0: State, es: seq<Event>, f: Id)
    requires Initial(s0) && ValidRun(cfg, s0, es)
    ensures Linear(Run(cfg, s0, es), f)
    ensures var fam := FamilyOf(Run(cfg, s0, es).issued, f);
            if fam == [] then Refreshes(cfg, s0, es, f) == 0 else |fam| == 1 + Refreshes(cfg, s0, es, f)
  {
    hide Inv;
    InitialInv(cfg, s0);
    RunKeepsInv(cfg, s0, es);
    FamilyLength(cfg, s0, es, f);
    InvariantIsLinear(cfg, Run(cfg, s0, es), f);
  }

  // A family token is accepted exactly while it is live and its family unmarked,
  // and then it is the newest of its family and gets the one successor.
  lemma OnlyNewestRefreshes(cfg: Config, s0: State, es: seq<Event>, e: Event, f: Id)
    requires Initial(s0) && ValidRun(cfg, s0, es) && Enabled(Run(cfg, s0, es), e)
    requires e.RefreshEvent? && e.token.Signed? && e.token.claims.fid == Some(f)
    ensures var s, c := Run(cfg, s0, es), e.token.claims;
            var fam := FamilyOf(s.issued, f);
            && (Step(cfg, s, e).1.Tokens? <==>
                  Family(f) !in s.denylist && Live(s.(now := e.at), c))
            && (Step(cfg, s, e).1.Tokens? ==>
                  fam != [] && fam[|fam|-1].claims == c &&
                  FamilyOf(Next(cfg, s, e).issued, f) == fam + [Issue(Step(cfg, s, e).1.refresh, Some(c.jti))] &&
                  Step(cfg, s, e).1.access.sub == Step(cfg, s, e).1.refresh.sub == c.sub)
  {
    hide Inv;
    InitialInv(cfg, s0);
    RunKeepsInv(cfg, s0, es);
    RefreshInFamily(cfg, Run(cfg, s0, es), e, f);
  }

  lemma RefreshAccepted(cfg: Config, s: State, e: Event, f: Id)
    requires FamilyTokensOk(cfg, s) && Enabled(s, e)
    requires e.RefreshEvent? && e.token.Signed? && e.token.claims.fid == Some(f)
    ensures Step(cfg, s, e).1.Tokens? <==> Family(f) !in s.denylist && Live(s.(now := e.at), e.token.claims)
    ensures Step(cfg, s, e).1.Tokens? ==> Step(cfg, s, e).1.access.sub == Step(cfg, s, e).1.refresh.sub == e.token.claims.sub
    ensures Step(cfg, s, e).1.Tokens? ==> Step(cfg, s, e).1.access.fid.None? && Step(cfg, s, e).1.refresh.fid == Some(f)
  {
    var k :| 0 <= k < |s.issued| && s.issued[k].claims == e.token.claims;
    assert s.issued[k].claims.sub in s.customers;
  }

  lemma RefreshInFamily(cfg: Config, s: State, e: Event, f: Id)
    requires Inv(cfg, s) && Enabled(s, e)
    requires e.RefreshEvent? && e.token.Signed? && e.token.claims.fid == Some(f)
    ensures var c := e.token.claims;
            var fam := FamilyOf(s.issued, f);
            && (Step(cfg, s, e).1.Tokens? <==> Family(f) !in s.denylist && Live(s.(now := e.at), c))
            && (Step(cfg, s, e).1.Tokens? ==>
                  fam != [] && fam[|fam|-1].claims == c &&
                  FamilyOf(Next(cfg, s, e).issued, f) == fam + [Issue(Step(cfg, s, e).1.refresh, Some(c.jti))] &&
                  Step(cfg, s, e).1.access.sub == Step(cfg, s, e).1.refresh.sub == c.sub)
  {
    hide Inv, Step, FamilyOf;
    var c := e.token.claims;
    InvParts(cfg, s);
    RefreshAccepted(cfg, s, e, f);
    var reply := Step(cfg, s, e).1;
    if reply.Tokens? {
      AdvanceKeepsInv(cfg, s, e.at);
      UnspentIsLast(cfg, s.(now := e.at), c);
      StepIssues(cfg, s, e);
      AppendFamilies(s.issued, Issue(reply.access, None), Issue(reply.refresh, Some(c.jti)), f);
      assert Next(cfg, s, e).issued == s.issued + [Issue(reply.access, None)] + [Issue(reply.refresh, Some(c.jti))];
    }
  }

  // Reuse detection never misses: presenting any older, unexpired token of an
  // unmarked family is refused and marks the family, with that token's expiry.
  lemma ReuseIsDetected(cfg: Config, s0: State, es: seq<Event>, e: Event, f: Id, i: nat)
    requires Initial(s0) && ValidRun(cfg, s0, es) && Enabled(Run(cfg, s0, es), e) && e.RefreshEvent?
    requires i + 1 < |FamilyOf(Run(cfg, s0, es).issued, f)|
    requires e.token == Signed(FamilyOf(Run(cfg, s0, es).issued, f)[i].claims) && e.at < e.token.claims.exp
    requires Family(f) !in Run(cfg, s0, es).denylist
    ensures Step(cfg, Run(cfg, s0, es), e).1 == Refused(TokenRevoked)
    ensures var d := Next(cfg, Run(cfg, s0, es), e).denylist;
            Family(f) in d && d[Family(f)].expiresAt == e.token.claims.exp
  {
    InitialInv(cfg, s0);
    RunKeepsInv(cfg, s0, es);
    var s := Run(cfg, s0, es);
    OnlyLastUnspent(cfg, s, f, i);
    var k := FamilyElement(s.issued, f, i);
    assert s.issued[k].claims.typ == RefreshToken;
  }

  // ---------------- family markers ----------------

  // While its marker is there a family is refused; only a prune past the
  // marker's expiry removes it.
  lemma MarkerRefuses(cfg: Config, s: State, e: Event, f: Id)
    requires FamilyTokensOk(cfg, s) && Enabled(s, e) && Family(f) in s.denylist
    ensures Refreshes(cfg, s, [e], f) == 0
    ensures var m := s.denylist[Family(f)];
            (e.at <= m.expiresAt || m.expiresAt <= 0) ==>
              Family(f) in Next(cfg, s, e).denylist && Next(cfg, s, e).denylist[Family(f)] == m
  {
    OneRefresh(cfg, s, e, f);
    if Refreshes(cfg, s, [e], f) == 1 { UsedFamilyIsKnown(cfg, s, e, f); }
  }

  lemma {:induction false} MarkedFamilyRefused(cfg: Config, s: State, es: seq<Event>, f: Id)
    requires Inv(cfg, s) && ValidRun(cfg, s, es) && Family(f) in s.denylist
    requires Run(cfg, s, es).now <= s.denylist[Family(f)].expiresAt || s.denylist[Family(f)].expiresAt <= 0
    ensures Refreshes(cfg, s, es, f) == 0
    decreases |es|
  {
    hide Inv;
    if es != [] {
      ClockAdvances(cfg, Next(cfg, s, es[0]), es[1..]);
      HistoryGrows(cfg, s, es[0]);
      InvParts(cfg, s);
      MarkerRefuses(cfg, s, es[0], f);
      assert [es[0]][1..] == [];
      StepKeepsInv(cfg, s, es[0]);
      MarkedFamilyRefused(cfg, Next(cfg, s, es[0]), es[1..], f);
    }
  }

  // No refresh of a marked family succeeds while the clock has not passed the
  // marker's expiry, whatever prunes interleave.
  lemma MarkerBinds(cfg: Config, s0: State, before: seq<Event>, after: seq<Event>, f: Id)
    requires Initial(s0) && ValidRun(cfg, s0, before) && ValidRun(cfg, Run(cfg, s0, before), after)
    requires Family(f) in Run(cfg, s0, before).denylist
    requires Run(cfg, Run(cfg, s0, before), after).now <= Run(cfg, s0, before).denylist[Family(f)].expiresAt
    ensures Refreshes(cfg, Run(cfg, s0, before), after, f) == 0
  {
    hide Inv;
    InitialInv(cfg, s0);
    RunKeepsInv(cfg, s0, before);
    MarkedFamilyRefused(cfg, Run(cfg, s0, before), after, f);
  }

  // Logging out with any unexpired token of a family marks it: until the marker's
  // expiry, which is that token's unless there was a marker before, none of its
  // tokens refreshes.
  lemma LogoutBlocksFamily(cfg: Config, s0: State, before: seq<Event>, e: Event, f: Id, after: seq<Event>)
    requires Initial(s0) && ValidRun(cfg, s0, before) && Enabled(Run(cfg, s0, before), e)
    requires e.LogoutEvent? && e.token.Signed? && e.at < e.token.claims.exp && e.token.claims.fid == Some(f)
    requires ValidRun(cfg, Next(cfg, Run(cfg, s0, before), e), after)
    ensures var s := Run(cfg, s0, before);
            var t := Next(cfg, s, e);
            && Family(f) in t.denylist
            && t.denylist[Family(f)].expiresAt
               == (if Family(f) in s.denylist then s.denylist[Family(f)].expiresAt else e.token.claims.exp)
            && (Run(cfg, t, after).now <= t.denylist[Family(f)].expiresAt ==> Refreshes(cfg, t, after, f) == 0)
  {
    hide Inv;
    InitialInv(cfg, s0);
    RunKeepsInv(cfg, s0, before);
    var s := Run(cfg, s0, before);
    StepKeepsInv(cfg, s, e);
    var t := Next(cfg, s, e);
    if Run(cfg, t, after).now <= t.denylist[Family(f)].expiresAt { MarkedFamilyRefused(cfg, t, after, f); }
  }

  lemma {:induction false} ClockAdvances(cfg: Config, s: State, es: seq<Event>)
    requires ValidRun(cfg, s, es)
    ensures s.now <= Run(cfg, s, es).now
    decreases |es|
  {
    if es != [] {
      HistoryGrows(cfg, s, es[0]);
      ClockAdvances(cfg, Next(cfg, s, es[0]), es[1..]);
    }
  }

  // The marker can be pruned while the family's newest token is still good.
  predicate Revivable(s: State, f: Id)
    requires Family(f) in s.denylist && FamilyOf(s.issued, f) != []
  {
    var m := s.denylist[Family(f)].expiresAt;
    var fam := FamilyOf(s.issued, f);
    var newest := fam[|fam|-1].claims;
    0 < m && Jti(newest.jti) !in s.denylist && m + 1 < newest.exp && s.now < newest.exp
  }

  // No token of the family will ever be accepted again.
  ghost predicate Ended(s: State, f: Id) {
    && FamilyOf(s.issued, f) != []
    && ((Family(f) in s.denylist && !Revivable(s, f))
        || NoneLive(s, FamilyOf(s.issued, f)))
  }

  lemma EndedRefuses(cfg: Config, s: State, e: Event, f: Id)
    requires Inv(cfg, s) && Enabled(s, e) && Ended(s, f)
    ensures Refreshes(cfg, s, [e], f) == 0
    ensures FamilyOf(Next(cfg, s, e).issued, f) == FamilyOf(s.issued, f)
  {
    FamilyGrows(cfg, s, e, f);
    var u := Used(cfg, s, e);
    assert Refreshes(cfg, s, [e], f) == if u.Some? && u.value.fid == Some(f) then 1 else 0;
    if u.Some? && u.value.fid == Some(f) {
      assert e.RefreshEvent? by {
        var k :| 0 <= k < |s.issued| && s.issued[k].claims == e.token.claims;
        assert s.issued[k].claims.typ == RefreshToken;
      }
      UnspentIsLast(cfg, s, u.value);
      assert false;
    }
  }

  lemma NotLiveStays(cfg: Config, s: State, e: Event, f: Id, i: nat)
    requires Inv(cfg, s) && Enabled(s, e) && i < |FamilyOf(s.issued, f)| && !Live(s, FamilyOf(s.issued, f)[i].claims)
    ensures !Live(Next(cfg, s, e), FamilyOf(s.issued, f)[i].claims)
  {
    var k := FamilyElement(s.issued, f, i);
    var c := s.issued[k].claims;
    HistoryGrows(cfg, s, e);
    if Jti(c.jti) in s.denylist { SpentStays(cfg, s, e, c); }
  }

  ghost predicate NoneLive(s: State, fam: seq<Issue>) {
    forall i :: 0 <= i < |fam| ==> !Live(s, fam[i].claims)
  }

  // Older tokens of a family are spent, so only the newest decides.
  lemma NewestDecides(cfg: Config, s: State, f: Id)
    requires Inv(cfg, s) && FamilyOf(s.issued, f) != []
    ensures var fam := FamilyOf(s.issued, f);
            !Live(s, fam[|fam|-1].claims) ==> NoneLive(s, fam)
  {
    var fam := FamilyOf(s.issued, f);
    if !Live(s, fam[|fam|-1].claims) {
      forall i | 0 <= i < |fam| ensures !Live(s, fam[i].claims) {
        if i + 1 < |fam| { OnlyLastUnspent(cfg, s, f, i); }
      }
    }
  }

  // The marker stays as it is, or is pruned after its expiry.
  lemma MarkerStaysOrLapses(cfg: Config, s: State, e: Event, f: Id)
    requires Family(f) in s.denylist
    ensures var d, m := Next(cfg, s, e).denylist, s.denylist[Family(f)];
            if Family(f) in d then d[Family(f)] == m else 0 < m.expiresAt < e.at
  {}

  lemma EndedStays(cfg: Config, s: State, e: Event, f: Id)
    requires Inv(cfg, s) && Enabled(s, e) && Ended(s, f)
    ensures Ended(Next(cfg, s, e), f)
  {
    hide Inv;
    EndedRefuses(cfg, s, e, f);
    StepKeepsInv(cfg, s, e);
    HistoryGrows(cfg, s, e);
    NewestDecides(cfg, s, f);
    NewestDecides(cfg, Next(cfg, s, e), f);
    var n := |FamilyOf(s.issued, f)| - 1;
    if !Live(s, FamilyOf(s.issued, f)[n].claims) {
      NotLiveStays(cfg, s, e, f, n);
    } else {
      MarkerStaysOrLapses(cfg, s, e, f);
    }
  }

  lemma {:induction false} EndedForEver(cfg: Config, s: State, es: seq<Event>, f: Id)
    requires Inv(cfg, s) && ValidRun(cfg, s, es) && Ended(s, f)
    ensures Refreshes(cfg, s, es, f) == 0
    decreases |es|
  {
    hide Inv;
    if es != [] {
      EndedRefuses(cfg, s, es[0], f);
      EndedStays(cfg, s, es[0], f);
      StepKeepsInv(cfg, s, es[0]);
      EndedForEver(cfg, Next(cfg, s, es[0]), es[1..], f);
      assert [es[0]][1..] == [];
    }
  }

  // Ids that the history does not use yet exist.
  lemma {:induction false} SomeNewIds(h: seq<Issue>) returns (bound: Id)
    ensures forall i :: 0 <= i < |h| ==> h[i].claims.jti < bound && (h[i].claims.fid.Some? ==> h[i].claims.fid.value < bound)
  {
    if h == [] {
      bound := 0;
    } else {
      var b := SomeNewIds(h[..|h|-1]);
      var c := h[|h|-1].claims;
      bound := b + c.jti + 1 + (if c.fid.Some? then c.fid.value else 0);
    }
  }

  // The run that revives a family: wait until the marker may go, prune, refresh.
  lemma Revive(cfg: Config, s: State, f: Id) returns (es: seq<Event>)
    requires Inv(cfg, s) && Family(f) in s.denylist && FamilyOf(s.issued, f) != [] && Revivable(s, f)
    ensures ValidRun(cfg, s, es) && Refreshes(cfg, s, es, f) == 1
  {
    var fam := FamilyOf(s.issued, f);
    var c := fam[|fam|-1].claims;
    var k := FamilyElement(s.issued, f, |fam|-1);
    var m := s.denylist[Family(f)].expiresAt;
    var at := if s.now < m + 1 then m + 1 else s.now;
    var b := SomeNewIds(s.issued);
    var prune := PruneEvent(at);
    var t := Next(cfg, s, prune);
    assert t.issued == s.issued && Family(f) !in t.denylist && Jti(c.jti) !in t.denylist;
    var use := RefreshEvent(at, Signed(c), Fresh(b, b + 1, b));
    es := [prune, use];
    assert Known(t.issued, Signed(c));
    assert Enabled(t, use);
    assert es[1..] == [use] && [use][1..] == [];
    assert ValidRun(cfg, t, [use]);
    assert Step(cfg, t, use).1.Tokens?;
    assert Refreshes(cfg, t, [use], f) == 1;
  }

  // A marked family is ended for good exactly when the marker outlives its newest
  // token: the marker never expires, or that token is itself listed, or its time
  // is over by the first second in which the marker can be pruned.
  lemma MarkedFamilyEndsIff(cfg: Config, s0: State, before: seq<Event>, f: Id)
    requires Initial(s0) && ValidRun(cfg, s0, before)
    requires Family(f) in Run(cfg, s0, before).denylist && FamilyOf(Run(cfg, s0, before).issued, f) != []
    ensures var s := Run(cfg, s0, before);
            (forall es :: ValidRun(cfg, s, es) ==> Refreshes(cfg, s, es, f) == 0) <==> !Revivable(s, f)
  {
    hide Inv;
    InitialInv(cfg, s0);
    RunKeepsInv(cfg, s0, before);
    var s := Run(cfg, s0, before);
    if Revivable(s, f) {
      var es := Revive(cfg, s, f);
      assert ValidRun(cfg, s, es) && Refreshes(cfg, s, es, f) != 0;
    } else {
      forall es | ValidRun(cfg, s, es) ensures Refreshes(cfg, s, es, f) == 0 {
        EndedForEver(cfg, s, es, f);
      }
    }
  }

  lemma LogoutEnds(cfg: Config, s: State, at: int, f: Id)
    requires Inv(cfg, s) && s.now <= at && FamilyOf(s.issued, f) != []
    ensures var fam := FamilyOf(s.issued, f);
            var e := LogoutEvent(at, Signed(fam[|fam|-1].claims));
            Inv(cfg, Next(cfg, s, e)) && Ended(Next(cfg, s, e), f)
  {
    hide Inv;
    var fam := FamilyOf(s.issued, f);
    var k := FamilyElement(s.issued, f, |fam|-1);
    var c := s.issued[k].claims;
    var e := LogoutEvent(at, Signed(c));
    assert Known(s.issued, Signed(c));
    StepKeepsInv(cfg, s, e);
    NewestDecides(cfg, Next(cfg, s, e), f);
    assert Next(cfg, s, e).issued == s.issued;
    assert !Live(Next(cfg, s, e), c);
  }

  // Logging out with the newest token ends the family for good.
  lemma LogoutWithNewestEnds(cfg: Config, s0: State, before: seq<Event>, at: int, f: Id, after: seq<Event>)
    requires Initial(s0) && ValidRun(cfg, s0, before) && Run(cfg, s0, before).now <= at
    requires FamilyOf(Run(cfg, s0, before).issued, f) != []
    requires ValidRun(cfg, LogoutNewest(cfg, Run(cfg, s0, before), at, f), after)
    ensures Refreshes(cfg, LogoutNewest(cfg, Run(cfg, s0, before), at, f), after, f) == 0
  {
    hide Inv;
    InitialInv(cfg, s0);
    RunKeepsInv(cfg, s0, before);
    LogoutEnds(cfg, Run(cfg, s0, before), at, f);
    EndedForEver(cfg, LogoutNewest(cfg, Run(cfg, s0, before), at, f), after, f);
  }

  function LogoutNewest(cfg: Config, s: State, at: int, f: Id): State
    requires FamilyOf(s.issued, f) != []
  {
    var fam := FamilyOf(s.issued, f);
    Next(cfg, s, LogoutEvent(at, Signed(fam[|fam|-1].claims)))
  }

  // A concrete run in which a detected reuse does not end the family: the marker
  // carries the older token's expiry, is pruned, and the newest token works again.
  const LAPSE_CONFIG := Config(1, 10, 1, 1)
  const FIRST := Claims(1, RefreshToken, 2, Some(7), 600)
  const SECOND := Claims(1, RefreshToken, 4, Some(7), 900)
  const SIGNUP := SignupEvent(0, 1, 0, Fresh(3, 2, 7))
  const ROTATE := RefreshEvent(300, Signed(FIRST), Fresh(5, 4, 8))
  const REUSE := RefreshEvent(301, Signed(FIRST), Fresh(9, 10, 11))
  const PRUNE := PruneEvent(601)
  const REVIVE := RefreshEvent(601, Signed(SECOND), Fresh(12, 13, 14))

  const START := State(0, map[], map[], [])
  const HISTORY := [Issue(Claims(1, CustomerToken, 3, None, 60), None), Issue(FIRST, None),
                    Issue(Claims(1, CustomerToken, 5, None, 360), None), Issue(SECOND, Some(2))]
  const SIGNED_UP := State(0, map[1 := Customer(0, false)], map[], HISTORY[..2])
  const ROTATED := State(300, map[1 := Customer(0, false)], map[Jti(2) := Row(600, Rotated, Some(7))], HISTORY)
  const MARKED := ROTATED.(now := 301,
                           denylist := map[Jti(2) := Row(600, Rotated, Some(7)), Family(7) := Row(600, Reused, Some(7))])
  const PRUNED := MARKED.(now := 601, denylist := map[])

  lemma LapseStarts()
    ensures Initial(START) && Enabled(START, SIGNUP) && Next(LAPSE_CONFIG, START, SIGNUP) == SIGNED_UP
  {}

  lemma LapseRotates()
    ensures Enabled(SIGNED_UP, ROTATE) && Next(LAPSE_CONFIG, SIGNED_UP, ROTATE) == ROTATED
  {
    assert SIGNED_UP.issued[1].claims == FIRST;
  }

  lemma LapseMarks()
    ensures Enabled(ROTATED, REUSE) && Next(LAPSE_CONFIG, ROTATED, REUSE) == MARKED
  {
    assert ROTATED.issued[1].claims == FIRST;
  }

  lemma LapsePrunes()
    ensures Enabled(MARKED, PRUNE) && Next(LAPSE_CONFIG, MARKED, PRUNE) == PRUNED
  {}

  lemma LapseRevives()
    ensures Enabled(PRUNED, REVIVE) && Step(LAPSE_CONFIG, PRUNED, REVIVE).1.Tokens?
  {
    assert PRUNED.issued[3].claims == SECOND;
  }

  lemma ReuseMarkerCanLapse()
    ensures Initial(START) && ValidRun(LAPSE_CONFIG, START, [SIGNUP, ROTATE, REUSE, PRUNE, REVIVE])
    ensures var marked := Run(LAPSE_CONFIG, START, [SIGNUP, ROTATE, REUSE]);
            var pruned := Run(LAPSE_CONFIG, marked, [PRUNE]);
            && Family(7) in marked.denylist
            && Step(LAPSE_CONFIG, pruned, REVIVE).1.Tokens?
            && Used(LAPSE_CONFIG, pruned, REVIVE).value.fid == Some(7)
  {
    hide Step, Enabled, Initial;
    LapseStarts();
    LapseRotates();
    LapseMarks();
    LapsePrunes();
    LapseRevives();
    var es := [SIGNUP, ROTATE, REUSE, PRUNE, REVIVE];
    assert es[1..] == [ROTATE, REUSE, PRUNE, REVIVE] && es[1..][1..] == [REUSE, PRUNE, REVIVE];
    assert [REUSE, PRUNE, REVIVE][1..] == [PRUNE, REVIVE] && [PRUNE, REVIVE][1..] == [REVIVE] && [REVIVE][1..] == [];
    assert ValidRun(LAPSE_CONFIG, PRUNED, [REVIVE]);
    assert ValidRun(LAPSE_CONFIG, MARKED, [PRUNE, REVIVE]);
    assert ValidRun(LAPSE_CONFIG, ROTATED, [REUSE, PRUNE, REVIVE]);
    assert [SIGNUP, ROTATE, REUSE][1..] == [ROTATE, REUSE] && [ROTATE, REUSE][1..] == [REUSE] && [REUSE][1..] == [] == [PRUNE][1..];
    assert Run(LAPSE_CONFIG, MARKED, [PRUNE]) == PRUNED;
    assert Run(LAPSE_CONFIG, ROTATED, [REUSE]) == MARKED;
    assert Run(LAPSE_CONFIG, START, [SIGNUP, ROTATE, REUSE]) == MARKED;
  }
}
