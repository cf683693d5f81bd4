/** The customer token protocol as a state machine: signup, login, refresh with
    rotation and reuse detection, logout, single-use action tokens, and pruning
    of the denylist.

    Times are whole epoch seconds.  A JWT carries its `exp` in whole seconds and
    both the decoder and the pruner compare it with the clock, so only the floor
    of the clock matters.  `issued` is history: every token ever signed, oldest
    first, each with the refresh token that was exchanged for it. */
module RefreshTokens {
  import opened Options

  type Id = nat

  datatype TokenType = CustomerToken | RefreshToken | ResetToken | VerifyToken | OtherToken
  datatype Claims = Claims(sub: Id, typ: TokenType, jti: Id, fid: Option<Id>, exp: int)
  datatype Issue = Issue(claims: Claims, parent: Option<Id>)

  // What a caller hands in: text that carries no valid signature, or signed claims.
  datatype Presented = Garbage | Signed(claims: Claims)

  // A row is keyed by a token's id, or by the marker text "family:<fid>".
  datatype Key = Jti(id: Id) | Family(id: Id)
  datatype Reason = Rotated | LoggedOut | Reused | PasswordWasReset | EmailWasVerified
  datatype Row = Row(expiresAt: int, reason: Reason, family: Option<Id>)
  type Denylist = map<Key, Row>

  datatype Customer = Customer(passwordHash: nat, emailVerified: bool)
  datatype Config = Config(accessMinutes: int, refreshMinutes: int, resetMinutes: int, verifyMinutes: int)
  datatype State = State(now: int, customers: map<Id, Customer>, denylist: Denylist, issued: seq<Issue>)
  datatype Fresh = Fresh(access: Id, refresh: Id, family: Id)

  datatype Refusal = InvalidToken | WrongType | FamilyRevoked | TokenRevoked | UnknownCustomer
  datatype Reply = Tokens(access: Claims, refresh: Claims) | Done | Refused(why: Refusal)

  // ---------------- denylist ----------------

  function Revoke(d: Denylist, key: Key, row: Row): Denylist {
    if key in d then d else d[key := row]
  }

  function PruneExpired(d: Denylist, now: int): Denylist {
    map k | k in d && !(0 < d[k].expiresAt < now) :: d[k]
  }

  // ---------------- operations ----------------

  function Decode(p: Presented, now: int): Option<Claims> {
    if p.Signed? && now < p.claims.exp then Some(p.claims) else None
  }

  function IssuePair(cfg: Config, s: State, customer: Id, family: Option<Id>, parent: Option<Id>, ids: Fresh)
    : (State, Reply)
  {
    var fid := if family.Some? then family.value else ids.family;
    var access := Claims(customer, CustomerToken, ids.access, None, s.now + 60 * cfg.accessMinutes);
    var refresh := Claims(customer, RefreshToken, ids.refresh, Some(fid), s.now + 60 * cfg.refreshMinutes);
    (s.(issued := s.issued + [Issue(access, None)] + [Issue(refresh, parent)]), Tokens(access, refresh))
  }

  function DoSignup(cfg: Config, s: State, customer: Id, hash: nat, ids: Fresh): (State, Reply) {
    IssuePair(cfg, s.(customers := s.customers[customer := Customer(hash, false)]), customer, None, None, ids)
  }

  function DoLogin(cfg: Config, s: State, customer: Id, ids: Fresh): (State, Reply) {
    if customer !in s.customers then (s, Refused(UnknownCustomer)) else IssuePair(cfg, s, customer, None, None, ids)
  }

  function DoRefresh(cfg: Config, s: State, p: Presented, ids: Fresh): (State, Reply) {
    var decoded := Decode(p, s.now);
    if decoded.None? then (s, Refused(InvalidToken)) else
    var c := decoded.value;
    if c.typ != RefreshToken then (s, Refused(WrongType))
    else if c.fid.Some? && Family(c.fid.value) in s.denylist then (s, Refused(FamilyRevoked))
    else if Jti(c.jti) in s.denylist then
      (if c.fid.Some?
       then s.(denylist := Revoke(s.denylist, Family(c.fid.value), Row(c.exp, Reused, c.fid)))
       else s,
       Refused(TokenRevoked))
    else if c.sub !in s.customers then (s, Refused(UnknownCustomer))
    else
      IssuePair(cfg, s.(denylist := Revoke(s.denylist, Jti(c.jti), Row(c.exp, Rotated, c.fid))),
                c.sub, c.fid, Some(c.jti), ids)
  }

  function DoLogout(s: State, p: Presented): (State, Reply) {
    var decoded := Decode(p, s.now);
    if decoded.None? then (s, Done) else
    var c := decoded.value;
    var d := Revoke(s.denylist, Jti(c.jti), Row(c.exp, LoggedOut, c.fid));
    (s.(denylist := if c.fid.Some? then Revoke(d, Family(c.fid.value), Row(c.exp, LoggedOut, c.fid)) else d), Done)
  }

  function ActionMinutes(cfg: Config, typ: TokenType): int {
    if typ == VerifyToken then cfg.verifyMinutes else cfg.resetMinutes
  }

  // A reset request answers alike whether the account exists or not.
  function DoSendAction(cfg: Config, s: State, customer: Id, typ: TokenType, jti: Id): (State, Reply) {
    if customer !in s.customers then (s, if typ == VerifyToken then Refused(UnknownCustomer) else Done)
    else if typ == VerifyToken && s.customers[customer].emailVerified then (s, Done)
    else
      var c := Claims(customer, typ, jti, None, s.now + 60 * ActionMinutes(cfg, typ));
      (s.(issued := s.issued + [Issue(c, None)]), Done)
  }

  function Consume(s: State, p: Presented, typ: TokenType): Option<Claims> {
    var decoded := Decode(p, s.now);
    if decoded.Some? && decoded.value.typ == typ && Jti(decoded.value.jti) !in s.denylist then decoded else None
  }

  function DoAction(s: State, p: Presented, typ: TokenType, reason: Reason, update: Customer -> Customer): (State, Reply) {
    var consumed := Consume(s, p, typ);
    if consumed.None? then (s, Refused(InvalidToken)) else
    var c := consumed.value;
    if c.sub !in s.customers then (s, Refused(UnknownCustomer)) else
    (s.(customers := s.customers[c.sub := update(s.customers[c.sub])],
        denylist := Revoke(s.denylist, Jti(c.jti), Row(c.exp, reason, None))),
     Done)
  }

  function DoResetPassword(s: State, p: Presented, hash: nat): (State, Reply) {
    DoAction(s, p, ResetToken, PasswordWasReset, (c: Customer) => c.(passwordHash := hash))
  }

  function DoVerifyEmail(s: State, p: Presented): (State, Reply) {
    DoAction(s, p, VerifyToken, EmailWasVerified, (c: Customer) => c.(emailVerified := true))
  }

  // ---------------- the state machine ----------------

  datatype Event =
    | SignupEvent(at: int, customer: Id, hash: nat, ids: Fresh)
    | LoginEvent(at: int, customer: Id, ids: Fresh)
    | RefreshEvent(at: int, token: Presented, ids: Fresh)
    | LogoutEvent(at: int, token: Presented)
    | SendActionEvent(at: int, customer: Id, typ: TokenType, jti: Id)
    | ResetPasswordEvent(at: int, token: Presented, hash: nat)
    | VerifyEmailEvent(at: int, token: Presented)
    | PruneEvent(at: int)
      // Some other service signs a token with the shared secret.
    | ForeignEvent(at: int, claims: Claims)

  function Act(cfg: Config, s: State, e: Event): (State, Reply) {
    match e
    case SignupEvent(_, customer, hash, ids) => DoSignup(cfg, s, customer, hash, ids)
    case LoginEvent(_, customer, ids) => DoLogin(cfg, s, customer, ids)
    case RefreshEvent(_, token, ids) => DoRefresh(cfg, s, token, ids)
    case LogoutEvent(_, token) => DoLogout(s, token)
    case SendActionEvent(_, customer, typ, jti) => DoSendAction(cfg, s, customer, typ, jti)
    case ResetPasswordEvent(_, token, hash) => DoResetPassword(s, token, hash)
    case VerifyEmailEvent(_, token) => DoVerifyEmail(s, token)
    case PruneEvent(_) => (s.(denylist := PruneExpired(s.denylist, s.now)), Done)
    case ForeignEvent(_, claims) => (s.(issued := s.issued + [Issue(claims, None)]), Done)
  }

  function Step(cfg: Config, s: State, e: Event): (State, Reply) { Act(cfg, s.(now := e.at), e) }

  ghost predicate Known(h: seq<Issue>, p: Presented) {
    p.Signed? ==> exists i :: 0 <= i < |h| && h[i].claims == p.claims
  }

  ghost predicate FreshJti(h: seq<Issue>, j: Id) {
    forall i :: 0 <= i < |h| ==> h[i].claims.jti != j
  }

  ghost predicate FreshFamily(h: seq<Issue>, f: Id) {
    forall i :: 0 <= i < |h| ==> h[i].claims.fid != Some(f)
  }

  ghost predicate NewIds(h: seq<Issue>, ids: Fresh) {
    FreshJti(h, ids.access) && FreshJti(h, ids.refresh) && ids.access != ids.refresh && FreshFamily(h, ids.family)
  }

  // What may happen next: the clock does not go back, ids are new, and a token
  // that carries a valid signature was signed earlier.
  ghost predicate Enabled(s: State, e: Event) {
    s.now <= e.at && Allowed(s, e)
  }

  ghost predicate Allowed(s: State, e: Event) {
       match e
       case SignupEvent(_, customer, _, ids) => customer !in s.customers && NewIds(s.issued, ids)
       case LoginEvent(_, _, ids) => NewIds(s.issued, ids)
       case RefreshEvent(_, token, ids) => Known(s.issued, token) && NewIds(s.issued, ids)
       case LogoutEvent(_, token) => Known(s.issued, token)
       case SendActionEvent(_, _, typ, jti) => typ in {ResetToken, VerifyToken} && FreshJti(s.issued, jti)
       case ResetPasswordEvent(_, token, _) => Known(s.issued, token)
       case VerifyEmailEvent(_, token) => Known(s.issued, token)
       case PruneEvent(_) => true
       case ForeignEvent(_, claims) => claims.fid.None? && FreshJti(s.issued, claims.jti)
  }

  function Next(cfg: Config, s: State, e: Event): State { Step(cfg, s, e).0 }

  function Run(cfg: Config, s: State, es: seq<Event>): State
    decreases |es|
  {
    if es == [] then s else Run(cfg, Next(cfg, s, es[0]), es[1..])
  }

  ghost predicate ValidRun(cfg: Config, s: State, es: seq<Event>)
    decreases |es|
  {
    es == [] || (Enabled(s, es[0]) && ValidRun(cfg, Next(cfg, s, es[0]), es[1..]))
  }

  ghost predicate Initial(s: State) {
    s.customers == map[] && s.denylist == map[] && s.issued == []
  }

  // ---------------- families ----------------

  // The refresh tokens of one family, in the order in which they were issued.
  function FamilyOf(h: seq<Issue>, f: Id): seq<Issue> {
    if h == [] then []
    else FamilyOf(h[..|h|-1], f) + (if h[|h|-1].claims.fid == Some(f) then [h[|h|-1]] else [])
  }

  // A token that can no longer be exchanged: its id is listed, or its time is past.
  predicate Spent(s: State, c: Claims) { Jti(c.jti) in s.denylist || c.exp < s.now }

  // A token that decoding accepts and that is not listed.
  predicate Live(s: State, c: Claims) { s.now < c.exp && Jti(c.jti) !in s.denylist }

  ghost predicate Chain(c: seq<Issue>) {
    forall i {:trigger c[i]} :: 0 < i < |c| ==>
      && c[i].parent == Some(c[i-1].claims.jti)
      && c[i].claims.sub == c[i-1].claims.sub
      && c[i-1].claims.exp <= c[i].claims.exp
  }

  ghost predicate ParentsOk(s: State) {
    var h := s.issued;
    && (forall i, k :: 0 <= i < |h| && 0 <= k < |h| && h[i].parent == Some(h[k].claims.jti) ==> Spent(s, h[k].claims))
    && (forall i :: 0 <= i < |h| && h[i].parent.Some? ==> !FreshJti(h, h[i].parent.value))
    && (forall i, j :: 0 <= i < j < |h| && h[i].parent.Some? ==> h[i].parent != h[j].parent)
  }

  ghost predicate RowsOk(s: State) {
    && (forall i :: 0 <= i < |s.issued| ==>
         Jti(s.issued[i].claims.jti) in s.denylist ==>
           s.denylist[Jti(s.issued[i].claims.jti)].expiresAt == s.issued[i].claims.exp)
    && (forall j :: Jti(j) in s.denylist ==> !FreshJti(s.issued, j))
    && (forall f :: Family(f) in s.denylist ==> !FreshFamily(s.issued, f))
  }

  ghost predicate FamilyTokensOk(cfg: Config, s: State) {
    forall i :: 0 <= i < |s.issued| && s.issued[i].claims.fid.Some? ==>
      && s.issued[i].claims.typ == RefreshToken
      && s.issued[i].claims.exp <= s.now + 60 * cfg.refreshMinutes
      && s.issued[i].claims.sub in s.customers
  }

  ghost predicate UniqueIds(h: seq<Issue>) {
    forall i, j :: 0 <= i < j < |h| ==> h[i].claims.jti != h[j].claims.jti
  }

  ghost predicate Inv(cfg: Config, s: State) {
    && UniqueIds(s.issued)
    && RowsOk(s)
    && FamilyTokensOk(cfg, s)
    && ParentsOk(s)
    && forall f :: Chain(FamilyOf(s.issued, f))
  }

  // For proofs that keep the invariant folded.
  lemma InvParts(cfg: Config, s: State)
    requires Inv(cfg, s)
    ensures UniqueIds(s.issued) && FamilyTokensOk(cfg, s)
  {}

  lemma FamilyAppend(h: seq<Issue>, x: Issue, f: Id)
    ensures FamilyOf(h + [x], f) == FamilyOf(h, f) + (if x.claims.fid == Some(f) then [x] else [])
  {
    assert (h + [x])[..|h|] == h;
  }

  lemma {:induction false} FamilyElement(h: seq<Issue>, f: Id, i: nat) returns (k: nat)
    requires i < |FamilyOf(h, f)|
    ensures k < |h| && h[k] == FamilyOf(h, f)[i] && h[k].claims.fid == Some(f)
  {
    if i < |FamilyOf(h[..|h|-1], f)| {
      k := FamilyElement(h[..|h|-1], f, i);
    } else {
      k := |h| - 1;
    }
  }

  lemma {:induction false} FamilyPosition(h: seq<Issue>, f: Id, k: nat) returns (i: nat)
    requires k < |h| && h[k].claims.fid == Some(f)
    ensures i < |FamilyOf(h, f)| && FamilyOf(h, f)[i] == h[k]
  {
    if k < |h| - 1 {
      i := FamilyPosition(h[..|h|-1], f, k);
    } else {
      i := |FamilyOf(h[..|h|-1], f)|;
    }
  }

  // Only the newest token of a family can still be exchanged.
  lemma OnlyLastUnspent(cfg: Config, s: State, f: Id, i: nat)
    requires Inv(cfg, s) && i + 1 < |FamilyOf(s.issued, f)|
    ensures Spent(s, FamilyOf(s.issued, f)[i].claims)
  {
    var fam := FamilyOf(s.issued, f);
    var k := FamilyElement(s.issued, f, i);
    var n := FamilyElement(s.issued, f, i + 1);
    assert fam[i+1].parent == Some(fam[i].claims.jti);
  }

  // An unspent family token is the newest of its family, and nothing was exchanged for it.
  lemma UnspentIsLast(cfg: Config, s: State, c: Claims)
    requires Inv(cfg, s) && Known(s.issued, Signed(c)) && !Spent(s, c)
    ensures forall i :: 0 <= i < |s.issued| ==> s.issued[i].parent != Some(c.jti)
    ensures c.fid.Some? ==>
      var fam := FamilyOf(s.issued, c.fid.value);
      fam != [] && fam[|fam|-1].claims == c
  {
    var k :| 0 <= k < |s.issued| && s.issued[k].claims == c;
    if c.fid.Some? {
      var i := FamilyPosition(s.issued, c.fid.value, k);
      if i + 1 < |FamilyOf(s.issued, c.fid.value)| {
        OnlyLastUnspent(cfg, s, c.fid.value, i);
      }
    }
  }

  // ---------------- the invariant is inductive ----------------

  lemma AppendKeepsKnown(h: seq<Issue>, x: Issue)
    ensures forall j :: !FreshJti(h, j) ==> !FreshJti(h + [x], j)
    ensures forall f :: !FreshFamily(h, f) ==> !FreshFamily(h + [x], f)
  {
    var g := h + [x];
    forall j: Id | !FreshJti(h, j) ensures !FreshJti(g, j) {
      var i :| 0 <= i < |h| && h[i].claims.jti == j;
      assert g[i].claims.jti == j;
    }
    forall f: Id | !FreshFamily(h, f) ensures !FreshFamily(g, f) {
      var i :| 0 <= i < |h| && h[i].claims.fid == Some(f);
      assert g[i].claims.fid == Some(f);
    }
  }

  // What must hold of a token's parent when the token is issued.
  ghost predicate ParentFits(s: State, x: Issue) {
    x.parent.Some? ==>
      && x.parent.value != x.claims.jti
      && (forall i :: 0 <= i < |s.issued| ==> s.issued[i].parent != x.parent)
      && !FreshJti(s.issued, x.parent.value)
      && (forall k :: 0 <= k < |s.issued| && s.issued[k].claims.jti == x.parent.value ==> Spent(s, s.issued[k].claims))
  }

  lemma AppendKeepsParents(s: State, x: Issue)
    requires ParentsOk(s) && FreshJti(s.issued, x.claims.jti) && ParentFits(s, x)
    ensures ParentsOk(s.(issued := s.issued + [x]))
  {
    AppendKeepsKnown(s.issued, x);
    var t := s.(issued := s.issued + [x]);
    assert forall i :: 0 <= i < |s.issued| ==> t.issued[i] == s.issued[i];
    forall i, k | 0 <= i < |t.issued| && 0 <= k < |t.issued| && t.issued[i].parent == Some(t.issued[k].claims.jti)
      ensures Spent(t, t.issued[k].claims)
    {
      if i < |s.issued| && k == |s.issued| {
        assert false;
      }
    }
  }

  lemma AppendKeepsChains(cfg: Config, s: State, x: Issue)
    requires FamilyTokensOk(cfg, s) && forall f :: Chain(FamilyOf(s.issued, f))
    requires x.claims.fid.Some? ==>
      && x.claims.exp == s.now + 60 * cfg.refreshMinutes
      && var fam := FamilyOf(s.issued, x.claims.fid.value);
         fam == [] || (x.parent == Some(fam[|fam|-1].claims.jti) && x.claims.sub == fam[|fam|-1].claims.sub)
    ensures forall f :: Chain(FamilyOf(s.issued + [x], f))
  {
    forall f: Id ensures Chain(FamilyOf(s.issued + [x], f)) {
      FamilyAppend(s.issued, x, f);
      var fam := FamilyOf(s.issued, f);
      assert Chain(fam);
      if x.claims.fid == Some(f) && fam != [] {
        var k := FamilyElement(s.issued, f, |fam| - 1);
      }
    }
  }

  lemma AppendKeepsInv(cfg: Config, s: State, x: Issue)
    requires Inv(cfg, s) && FreshJti(s.issued, x.claims.jti) && ParentFits(s, x)
    requires x.claims.fid.Some? ==>
      && x.claims.typ == RefreshToken
      && x.claims.exp == s.now + 60 * cfg.refreshMinutes
      && x.claims.sub in s.customers
      && var fam := FamilyOf(s.issued, x.claims.fid.value);
         fam == [] || (x.parent == Some(fam[|fam|-1].claims.jti) && x.claims.sub == fam[|fam|-1].claims.sub)
    ensures Inv(cfg, s.(issued := s.issued + [x]))
  {
    AppendKeepsKnown(s.issued, x);
    AppendKeepsParents(s, x);
    AppendKeepsChains(cfg, s, x);
  }

  lemma IssuePairKeepsInv(cfg: Config, s: State, customer: Id, family: Option<Id>, parent: Option<Id>, ids: Fresh)
    requires Inv(cfg, s) && NewIds(s.issued, ids) && customer in s.customers
    requires family.Some? ==>
      var fam := FamilyOf(s.issued, family.value);
      fam != [] && parent == Some(fam[|fam|-1].claims.jti) && customer == fam[|fam|-1].claims.sub
    requires parent.Some? ==>
      && (forall i :: 0 <= i < |s.issued| ==> s.issued[i].parent != parent)
      && (exists k :: 0 <= k < |s.issued| && s.issued[k].claims.jti == parent.value && Spent(s, s.issued[k].claims))
    ensures Inv(cfg, IssuePair(cfg, s, customer, family, parent, ids).0)
  {
    hide Inv;
    var r := IssuePair(cfg, s, customer, family, parent, ids).1;
    var t := s.(issued := s.issued + [Issue(r.access, None)]);
    AppendKeepsInv(cfg, s, Issue(r.access, None));
    var x := Issue(r.refresh, parent);
    FamilyAppend(s.issued, Issue(r.access, None), r.refresh.fid.value);
    if family.None? && FamilyOf(s.issued, ids.family) != [] {
      var k := FamilyElement(s.issued, ids.family, 0);
      assert false;
    }
    if parent.Some? {
      var k :| 0 <= k < |s.issued| && s.issued[k].claims.jti == parent.value && Spent(s, s.issued[k].claims);
      assert t.issued[k] == s.issued[k];
      InvParts(cfg, t);
      assert forall i :: 0 <= i < |t.issued| && t.issued[i].claims.jti == parent.value ==> i == k;
    }
    AppendKeepsInv(cfg, t, x);
  }

  // Listing a known token (with its own expiry) or a known family keeps the invariant.
  lemma RevokeKeepsInv(cfg: Config, s: State, key: Key, row: Row, c: Claims)
    requires Inv(cfg, s) && Known(s.issued, Signed(c)) && row.expiresAt == c.exp
    requires key == Jti(c.jti) || (c.fid.Some? && key == Family(c.fid.value))
    ensures Inv(cfg, s.(denylist := Revoke(s.denylist, key, row)))
  {
    hide FamilyOf, Chain;
    var k :| 0 <= k < |s.issued| && s.issued[k].claims == c;
    var t := s.(denylist := Revoke(s.denylist, key, row));
    assert RowsOk(t);
    assert ParentsOk(t);
  }

  lemma PruneKeepsInv(cfg: Config, s: State)
    requires Inv(cfg, s)
    ensures Inv(cfg, s.(denylist := PruneExpired(s.denylist, s.now)))
  {
    var t := s.(denylist := PruneExpired(s.denylist, s.now));
    forall i | 0 <= i < |s.issued| && Spent(s, s.issued[i].claims) ensures Spent(t, s.issued[i].claims) {}
    assert RowsOk(t);
    assert ParentsOk(t);
  }

  lemma RefreshKeepsInv(cfg: Config, s: State, p: Presented, ids: Fresh)
    requires Inv(cfg, s) && Known(s.issued, p) && NewIds(s.issued, ids)
    ensures Inv(cfg, DoRefresh(cfg, s, p, ids).0)
  {
    var r := DoRefresh(cfg, s, p, ids);
    if r.1.Tokens? {
      var c := p.claims;
      UnspentIsLast(cfg, s, c);
      RevokeKeepsInv(cfg, s, Jti(c.jti), Row(c.exp, Rotated, c.fid), c);
      var t := s.(denylist := Revoke(s.denylist, Jti(c.jti), Row(c.exp, Rotated, c.fid)));
      var k :| 0 <= k < |s.issued| && s.issued[k].claims == c;
      assert t.issued[k].claims.jti == c.jti && Spent(t, t.issued[k].claims);
      IssuePairKeepsInv(cfg, t, c.sub, c.fid, Some(c.jti), ids);
    } else if r.0 != s {
      RevokeKeepsInv(cfg, s, Family(p.claims.fid.value), Row(p.claims.exp, Reused, p.claims.fid), p.claims);
    }
  }

  lemma LogoutKeepsInv(cfg: Config, s: State, p: Presented)
    requires Inv(cfg, s) && Known(s.issued, p)
    ensures Inv(cfg, DoLogout(s, p).0)
  {
    hide Inv;
    if Decode(p, s.now).Some? {
      var c := p.claims;
      RevokeKeepsInv(cfg, s, Jti(c.jti), Row(c.exp, LoggedOut, c.fid), c);
      if c.fid.Some? {
        var t := s.(denylist := Revoke(s.denylist, Jti(c.jti), Row(c.exp, LoggedOut, c.fid)));
        RevokeKeepsInv(cfg, t, Family(c.fid.value), Row(c.exp, LoggedOut, c.fid), c);
      }
    }
  }

  lemma ActionKeepsInv(cfg: Config, s: State, p: Presented, typ: TokenType, reason: Reason, update: Customer -> Customer)
    requires Inv(cfg, s) && Known(s.issued, p)
    ensures Inv(cfg, DoAction(s, p, typ, reason, update).0)
  {
    hide FamilyOf, Chain;
    var consumed := Consume(s, p, typ);
    if consumed.Some? && p.claims.sub in s.customers {
      var c := p.claims;
      RevokeKeepsInv(cfg, s, Jti(c.jti), Row(c.exp, reason, None), c);
      var t := s.(denylist := Revoke(s.denylist, Jti(c.jti), Row(c.exp, reason, None)));
      var u := DoAction(s, p, typ, reason, update).0;
      assert u.customers.Keys == t.customers.Keys;
      assert ParentsOk(u);
    }
  }

  lemma AdvanceKeepsInv(cfg: Config, s: State, at: int)
    requires Inv(cfg, s) && s.now <= at
    ensures Inv(cfg, s.(now := at))
  {
    assert ParentsOk(s.(now := at));
  }

  lemma SignupKeepsInv(cfg: Config, s: State, customer: Id, hash: nat, ids: Fresh)
    requires Inv(cfg, s) && NewIds(s.issued, ids)
    ensures Inv(cfg, DoSignup(cfg, s, customer, hash, ids).0)
  {
    var t := s.(customers := s.customers[customer := Customer(hash, false)]);
    assert ParentsOk(t);
    IssuePairKeepsInv(cfg, t, customer, None, None, ids);
  }

  lemma LoginKeepsInv(cfg: Config, s: State, customer: Id, ids: Fresh)
    requires Inv(cfg, s) && NewIds(s.issued, ids)
    ensures Inv(cfg, DoLogin(cfg, s, customer, ids).0)
  {
    hide Inv;
    if customer in s.customers { IssuePairKeepsInv(cfg, s, customer, None, None, ids); }
  }

  lemma SendActionKeepsInv(cfg: Config, s: State, customer: Id, typ: TokenType, jti: Id)
    requires Inv(cfg, s) && FreshJti(s.issued, jti)
    ensures Inv(cfg, DoSendAction(cfg, s, customer, typ, jti).0)
  {
    hide Inv;
    AppendKeepsInv(cfg, s, Issue(Claims(customer, typ, jti, None, s.now + 60 * ActionMinutes(cfg, typ)), None));
  }

  lemma ActKeepsInv(cfg: Config, s: State, e: Event)
    requires Inv(cfg, s) && Allowed(s, e)
    ensures Inv(cfg, Act(cfg, s, e).0)
  {
    hide Inv;
    match e
    case SignupEvent(_, customer, hash, ids) => SignupKeepsInv(cfg, s, customer, hash, ids);
    case LoginEvent(_, customer, ids) => LoginKeepsInv(cfg, s, customer, ids);
    case RefreshEvent(_, token, ids) => RefreshKeepsInv(cfg, s, token, ids);
    case LogoutEvent(_, token) => LogoutKeepsInv(cfg, s, token);
    case SendActionEvent(_, customer, typ, jti) => SendActionKeepsInv(cfg, s, customer, typ, jti);
    case ResetPasswordEvent(_, token, hash) =>
      ActionKeepsInv(cfg, s, token, ResetToken, PasswordWasReset, (c: Customer) => c.(passwordHash := hash));
    case VerifyEmailEvent(_, token) =>
      ActionKeepsInv(cfg, s, token, VerifyToken, EmailWasVerified, (c: Customer) => c.(emailVerified := true));
    case PruneEvent(_) => PruneKeepsInv(cfg, s);
    case ForeignEvent(_, claims) => AppendKeepsInv(cfg, s, Issue(claims, None));
  }

  lemma StepKeepsInv(cfg: Config, s: State, e: Event)
    requires Inv(cfg, s) && Enabled(s, e)
    ensures Inv(cfg, Next(cfg, s, e))
  {
    hide Inv;
    AdvanceKeepsInv(cfg, s, e.at);
    ActKeepsInv(cfg, s.(now := e.at), e);
  }

  lemma {:induction false} RunKeepsInv(cfg: Config, s: State, es: seq<Event>)
    requires Inv(cfg, s) && ValidRun(cfg, s, es)
    ensures Inv(cfg, Run(cfg, s, es))
    decreases |es|
  {
    hide Inv;
    if es != [] {
      StepKeepsInv(cfg, s, es[0]);
      RunKeepsInv(cfg, Next(cfg, s, es[0]), es[1..]);
    }
  }

  lemma InitialInv(cfg: Config, s: State)
    requires Initial(s)
    ensures Inv(cfg, s)
  {}
}
