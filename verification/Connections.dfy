/** OAuth tokens of connected drives: sealed at rest, opened for provider calls,
    re-sealed when a provider refreshes them and when the key is rotated. */
module Connections {
  import opened Tables
  import opened TokenCiphers

  // The token fields of a connection's meta; "" is an absent or empty token.
  datatype Meta = Meta(accessToken: string, refreshToken: string, expiresAt: int)
  datatype Nonces = Nonces(access: nat, refresh: nat)

  function SealMeta(c: Cipher, m: Meta, n: Nonces): Meta {
    m.(accessToken := Encrypt(c, m.accessToken, n.access), refreshToken := Encrypt(c, m.refreshToken, n.refresh))
  }

  function OpenMeta(c: Cipher, m: Meta): Meta {
    m.(accessToken := Decrypt(c, m.accessToken), refreshToken := Decrypt(c, m.refreshToken))
  }

  // ---------------- refreshed tokens ----------------

  // What the provider hands back: a new access token and its expiry.
  datatype Refreshed = Refreshed(accessToken: string, expiresAt: int, nonces: Nonces)

  function Persist(c: Cipher, stored: Meta, r: Refreshed): Meta {
    SealMeta(c, OpenMeta(c, stored).(accessToken := r.accessToken, expiresAt := r.expiresAt), r.nonces)
  }

  function PersistAll(c: Cipher, stored: Meta, rs: seq<Refreshed>): Meta
    decreases |rs|
  {
    if rs == [] then stored else PersistAll(c, Persist(c, stored, rs[0]), rs[1..])
  }

  // However often the provider refreshes the access token, the refresh token
  // stays readable in one step: it is never sealed twice and never lost.
  lemma {:induction false} RefreshTokenKept(c: Cipher, stored: Meta, rs: seq<Refreshed>)
    requires Ideal(c.suite)
    ensures OpenMeta(c, PersistAll(c, stored, rs)).refreshToken == OpenMeta(c, stored).refreshToken
    decreases |rs|
  {
    if rs != [] {
      RoundTrip(c, Decrypt(c, stored.refreshToken), rs[0].nonces.refresh);
      RefreshTokenKept(c, Persist(c, stored, rs[0]), rs[1..]);
    }
  }

  // And the access token that opens, and its expiry, are the latest handed back: the
  // token exactly unless encryption is off and it looks tagged.
  lemma LatestAccessToken(c: Cipher, stored: Meta, rs: seq<Refreshed>, last: Refreshed)
    requires Ideal(c.suite)
    ensures OpenMeta(c, PersistAll(c, stored, rs + [last])).accessToken == last.accessToken
       <==> Enabled(c) || !IsEncrypted(last.accessToken)
    ensures PersistAll(c, stored, rs + [last]).expiresAt == last.expiresAt
  {
    PersistLast(c, stored, rs, last);
    RoundTrip(c, last.accessToken, last.nonces.access);
  }

  lemma {:induction false} PersistLast(c: Cipher, stored: Meta, rs: seq<Refreshed>, last: Refreshed)
    ensures PersistAll(c, stored, rs + [last]) == Persist(c, PersistAll(c, stored, rs), last)
    decreases |rs|
  {
    if rs == [] {
      assert [] + [last] == [last] && [last][1..] == [];
    } else {
      assert (rs + [last])[1..] == rs[1..] + [last];
      PersistLast(c, Persist(c, stored, rs[0]), rs[1..], last);
    }
  }

  // ---------------- re-encryption after a key rotation ----------------

  predicate HasToken(m: Meta) { m.accessToken != "" || m.refreshToken != "" }

  function ReencryptRow(c: Cipher, m: Meta, n: Nonces): Meta {
    if Enabled(c) && HasToken(m) then SealMeta(c, OpenMeta(c, m), n) else m
  }

  predicate HasEncrypted(m: Meta) { IsEncrypted(m.accessToken) || IsEncrypted(m.refreshToken) }

  predicate IsStale(c: Cipher, m: Meta) {
    || (IsEncrypted(m.accessToken) && !IsCurrent(c, m.accessToken))
    || (IsEncrypted(m.refreshToken) && !IsCurrent(c, m.refreshToken))
  }

  function CountEncrypted(c: Cipher, rows: seq<Meta>): nat {
    if Enabled(c) then CountIf((m: Meta) => HasEncrypted(m), rows) else 0
  }

  function CountStale(c: Cipher, rows: seq<Meta>): nat {
    if Enabled(c) then CountIf((m: Meta) => IsStale(c, m), rows) else 0
  }

  // The status report finds nothing stale exactly if no row is.
  lemma NothingStale(c: Cipher, rows: seq<Meta>)
    requires Enabled(c)
    ensures CountStale(c, rows) == 0 <==> forall i :: 0 <= i < |rows| ==> !IsStale(c, rows[i])
  {
    NoneCounted((m: Meta) => IsStale(c, m), rows);
  }

  // The report's numbers: rows with a token in one of the two sealed forms, and those
  // of them that are stale; nothing without a key.
  lemma ReportNumbers(c: Cipher, rows: seq<Meta>)
    ensures CountEncrypted(c, rows) ==
              if !Enabled(c) then 0
              else |set i: nat | i < |rows| && (LooksSealed(rows[i].accessToken) || LooksSealed(rows[i].refreshToken))|
    ensures CountStale(c, rows) == if !Enabled(c) then 0 else |set i: nat | i < |rows| && IsStale(c, rows[i])|
  {
    CountIsNumber((m: Meta) => HasEncrypted(m), rows,
                  set i: nat | i < |rows| && (LooksSealed(rows[i].accessToken) || LooksSealed(rows[i].refreshToken)));
    CountIsNumber((m: Meta) => IsStale(c, m), rows, set i: nat | i < |rows| && IsStale(c, rows[i]));
  }

  predicate LooksSealed(token: string) { "enc:v1:" <= token || "enc:v2:" <= token }

  function ReencryptAll(c: Cipher, rows: seq<Meta>, nonces: seq<Nonces>): seq<Meta>
    requires |nonces| == |rows|
  {
    seq(|rows|, i requires 0 <= i < |rows| => ReencryptRow(c, rows[i], nonces[i]))
  }

  lemma EachReencrypted(c: Cipher, before: seq<Meta>, nonces: seq<Nonces>, after: seq<Meta>)
    requires |nonces| == |before| == |after|
    requires forall i :: 0 <= i < |before| ==> after[i] == ReencryptRow(c, before[i], nonces[i])
    ensures after == ReencryptAll(c, before, nonces)
  {}

  lemma DisabledKeeps(c: Cipher, rows: seq<Meta>, nonces: seq<Nonces>)
    requires |nonces| == |rows| && !Enabled(c)
    ensures ReencryptAll(c, rows, nonces) == rows && CountChanged(rows, rows, |rows|) == 0
  {
    NoneChanged(rows, rows, |rows|);
  }

  predicate ReadableMeta(c: Cipher, m: Meta) { Readable(c, m.accessToken) && Readable(c, m.refreshToken) }

  // Under an enabled cipher, re-encrypting never changes what a row opens to,
  // and with a current key nothing stale is left, readable or not.
  lemma ReencryptRowKeeps(c: Cipher, m: Meta, n: Nonces)
    requires Ideal(c.suite)
    ensures OpenMeta(c, ReencryptRow(c, m, n)) == OpenMeta(c, m)
    ensures Enabled(c) && c.key != "" ==> !IsStale(c, ReencryptRow(c, m, n))
    ensures Enabled(c) ==> ReadableMeta(c, ReencryptRow(c, m, n))
  {
    if Enabled(c) {
      var o := OpenMeta(c, m);
      RoundTrip(c, o.accessToken, n.access);
      RoundTrip(c, o.refreshToken, n.refresh);
      if o.accessToken != "" { EncryptedParses(c, o.accessToken, n.access); }
      if o.refreshToken != "" { EncryptedParses(c, o.refreshToken, n.refresh); }
    }
  }

  // ---------------- any run of key rotations and provider refreshes ----------------

  datatype State = State(cipher: Cipher, rows: seq<Meta>)

  datatype Event =
      // A restart with a new current key, the old one kept as a previous key.
    | SwitchKey(key: string)
    | Reencrypt(nonces: seq<Nonces>)
      // A restart without the previous keys, once the report finds nothing stale.
    | DropKeys
    | RefreshRow(row: nat, refreshed: Refreshed)
      // A completed sign-in at a provider.
    | Connect(meta: Meta, nonce: Nonces)

  ghost predicate Enables(s: State, e: Event) {
    match e
    case SwitchKey(key) => key != ""
    case Reencrypt(nonces) => |nonces| == |s.rows|
    case DropKeys => s.cipher.key != "" && CountStale(s.cipher, s.rows) == 0
    case RefreshRow(row, _) => row < |s.rows|
    case Connect(_, _) => true
  }

  function Next(s: State, e: Event): State
    requires e.Reencrypt? ==> |e.nonces| == |s.rows|
    requires e.RefreshRow? ==> e.row < |s.rows|
  {
    match e
    case SwitchKey(key) => s.(cipher := NewKey(s.cipher, key))
    case Reencrypt(nonces) => s.(rows := ReencryptAll(s.cipher, s.rows, nonces))
    case DropKeys => s.(cipher := DropPrevious(s.cipher))
    case RefreshRow(row, r) => s.(rows := s.rows[row := Persist(s.cipher, s.rows[row], r)])
    case Connect(meta, nonce) => s.(rows := s.rows + [SealMeta(s.cipher, meta, nonce)])
  }

  ghost predicate ValidRun(s: State, es: seq<Event>)
    decreases |es|
  {
    es == [] || (Enables(s, es[0]) && ValidRun(Next(s, es[0]), es[1..]))
  }

  ghost function Run(s: State, es: seq<Event>): State
    requires ValidRun(s, es)
    decreases |es|
  {
    if es == [] then s else Run(Next(s, es[0]), es[1..])
  }

  // The access token handed back last for a row along a run, if any.
  function LastAccess(es: seq<Event>, i: nat, start: string): string {
    if es == [] then start
    else LastAccess(es[1..], i, if es[0].RefreshRow? && es[0].row == i then es[0].refreshed.accessToken else start)
  }

  // A row that can be read, with truthful tags.
  ghost predicate RowGood(c: Cipher, m: Meta) {
    ReadableMeta(c, m) && Truthful(c.suite, m.accessToken) && Truthful(c.suite, m.refreshToken)
  }

  lemma SealedRow(c: Cipher, m: Meta, n: Nonces)
    requires Ideal(c.suite) && NoCollisions(c.suite) && Enabled(c)
    ensures RowGood(c, SealMeta(c, m, n)) && OpenMeta(c, SealMeta(c, m, n)) == m
  {
    SealedIsTruthful(c, m.accessToken, n.access);
    SealedIsTruthful(c, m.refreshToken, n.refresh);
    RoundTrip(c, m.accessToken, n.access);
    RoundTrip(c, m.refreshToken, n.refresh);
  }

  // A row is not reported stale exactly if its tags name keys and dropping the
  // previous keys loses none of its tokens.
  lemma StaleIff(c: Cipher, m: Meta)
    requires Ideal(c.suite) && Enabled(c) && c.key != "" && RowGood(c, m)
    ensures !IsStale(c, m) <==>
              && OpenMeta(DropPrevious(c), m) == OpenMeta(c, m)
              && (IsEncrypted(m.accessToken) ==> NamesKey(c.suite, m.accessToken))
              && (IsEncrypted(m.refreshToken) ==> NamesKey(c.suite, m.refreshToken))
  {
    if IsEncrypted(m.accessToken) { CurrentIff(c, m.accessToken); }
    if IsEncrypted(m.refreshToken) { CurrentIff(c, m.refreshToken); }
  }

  lemma DropKeepsRow(c: Cipher, m: Meta)
    requires Ideal(c.suite) && c.available && c.key != "" && RowGood(c, m) && !IsStale(c, m)
    ensures Enabled(DropPrevious(c)) && RowGood(DropPrevious(c), m)
    ensures OpenMeta(DropPrevious(c), m) == OpenMeta(c, m)
  {
    OnlyCurrentKey(c);
    StaleIff(c, m);
  }

  // While no key is set, a token is stored as it is, so it must not look sealed.
  predicate StoresPlain(s: State, e: Event, i: nat) {
    e.RefreshRow? && e.row == i && !Enabled(s.cipher) ==> !IsEncrypted(e.refreshed.accessToken)
  }

  ghost predicate PlainWhileOff(s: State, es: seq<Event>, i: nat)
    requires ValidRun(s, es)
    decreases |es|
  {
    es == [] || (StoresPlain(s, es[0], i) && PlainWhileOff(Next(s, es[0]), es[1..], i))
  }

  lemma NextKeepsRow(s: State, e: Event, i: nat)
    requires Ideal(s.cipher.suite) && NoCollisions(s.cipher.suite) && Enables(s, e) && StoresPlain(s, e, i)
    requires i < |s.rows| && RowGood(s.cipher, s.rows[i])
    ensures var t := Next(s, e);
            && t.cipher.suite == s.cipher.suite && i < |t.rows| && RowGood(t.cipher, t.rows[i])
            && OpenMeta(t.cipher, t.rows[i]).refreshToken == OpenMeta(s.cipher, s.rows[i]).refreshToken
            && OpenMeta(t.cipher, t.rows[i]).accessToken == LastAccess([e], i, OpenMeta(s.cipher, s.rows[i]).accessToken)
  {
    assert [e][1..] == [];
    var m := s.rows[i];
    match e
    case SwitchKey(key) =>
      NewKeyHoldsOld(s.cipher, key);
      MoreKeysOpenTheSame(s.cipher, NewKey(s.cipher, key), m.accessToken);
      MoreKeysOpenTheSame(s.cipher, NewKey(s.cipher, key), m.refreshToken);
    case Reencrypt(nonces) =>
      if Enabled(s.cipher) { SealedRow(s.cipher, OpenMeta(s.cipher, m), nonces[i]); }
    case DropKeys =>
      OnlyCurrentKey(s.cipher);
      if Enabled(s.cipher) {
        NothingStale(s.cipher, s.rows);
        DropKeepsRow(s.cipher, m);
      }
    case RefreshRow(row, r) =>
      if Enabled(s.cipher) {
        SealedRow(s.cipher, OpenMeta(s.cipher, m).(accessToken := r.accessToken, expiresAt := r.expiresAt), r.nonces);
      }
    case Connect(_, _) =>
  }

  // Over every run in which keys change, rows are re-encrypted, previous keys are
  // dropped when the report finds nothing stale, and providers hand back tokens in
  // between: a row that could be read keeps its refresh token and opens to its latest
  // access token.  The start may have no key yet, with tokens stored as they are.
  lemma {:induction false} RunKeepsTokens(s: State, es: seq<Event>, i: nat)
    requires Ideal(s.cipher.suite) && NoCollisions(s.cipher.suite) && ValidRun(s, es) && PlainWhileOff(s, es, i)
    requires i < |s.rows| && RowGood(s.cipher, s.rows[i])
    ensures var t := Run(s, es);
            && i < |t.rows| && RowGood(t.cipher, t.rows[i])
            && OpenMeta(t.cipher, t.rows[i]).refreshToken == OpenMeta(s.cipher, s.rows[i]).refreshToken
            && OpenMeta(t.cipher, t.rows[i]).accessToken == LastAccess(es, i, OpenMeta(s.cipher, s.rows[i]).accessToken)
    decreases |es|
  {
    hide RowGood, OpenMeta;
    if es != [] {
      NextKeepsRow(s, es[0], i);
      assert [es[0]][1..] == [];
      RunKeepsTokens(Next(s, es[0]), es[1..], i);
    }
  }

  // ---------------- nothing readable at rest ----------------

  predicate TokenAtRest(token: string) { token == "" || "enc:v2:" <= token }

  predicate AtRest(m: Meta) { TokenAtRest(m.accessToken) && TokenAtRest(m.refreshToken) }

  lemma SealedIsAtRest(c: Cipher, m: Meta, n: Nonces)
    requires Enabled(c)
    ensures AtRest(SealMeta(c, m, n))
  {
    if m.accessToken != "" { EncryptedIsTagged(c, m.accessToken, n.access); }
    if m.refreshToken != "" { EncryptedIsTagged(c, m.refreshToken, n.refresh); }
  }

  lemma NextAtRest(s: State, e: Event, i: nat)
    requires Enabled(s.cipher) && Enables(s, e) && i < |Next(s, e).rows|
    ensures Enabled(Next(s, e).cipher)
    ensures (i < |s.rows| ==> AtRest(s.rows[i]) || e.Reencrypt? || (e.RefreshRow? && e.row == i)) ==> AtRest(Next(s, e).rows[i])
  {
    hide SealMeta, OpenMeta;
    match e
    case SwitchKey(key) => NewKeyHoldsOld(s.cipher, key);
    case Reencrypt(nonces) => SealedIsAtRest(s.cipher, OpenMeta(s.cipher, s.rows[i]), nonces[i]);
    case DropKeys => OnlyCurrentKey(s.cipher);
    case RefreshRow(row, r) =>
      SealedIsAtRest(s.cipher, OpenMeta(s.cipher, s.rows[row]).(accessToken := r.accessToken, expiresAt := r.expiresAt), r.nonces);
    case Connect(meta, nonce) => SealedIsAtRest(s.cipher, meta, nonce);
  }

  // Under encryption every token is sealed at rest over every run in which the rows
  // are re-encrypted once, or were sealed to begin with.
  lemma {:induction false} StaysAtRest(s: State, es: seq<Event>, sealed: bool)
    requires Enabled(s.cipher) && ValidRun(s, es)
    requires sealed ==> forall i :: 0 <= i < |s.rows| ==> AtRest(s.rows[i])
    requires sealed || exists j :: 0 <= j < |es| && es[j].Reencrypt?
    ensures forall i :: 0 <= i < |Run(s, es).rows| ==> AtRest(Run(s, es).rows[i])
    decreases |es|
  {
    hide AtRest;
    if es != [] {
      var t := Next(s, es[0]);
      forall i | 0 <= i < |t.rows| ensures sealed || es[0].Reencrypt? ==> AtRest(t.rows[i]) { NextAtRest(s, es[0], i); }
      OnAfter(s, es[0]);
      if !sealed && !es[0].Reencrypt? {
        var j :| 0 <= j < |es| && es[j].Reencrypt?;
        assert es[1..][j - 1] == es[j];
      }
      StaysAtRest(t, es[1..], sealed || es[0].Reencrypt?);
    }
  }

  lemma OnAfter(s: State, e: Event)
    requires Enabled(s.cipher) && Enables(s, e)
    ensures Enabled(Next(s, e).cipher)
  {
    if e.SwitchKey? { NewKeyHoldsOld(s.cipher, e.key); }
    if e.DropKeys? { OnlyCurrentKey(s.cipher); }
  }

  // Once on, encryption stays on.
  lemma {:induction false} OnStaysOn(s: State, es: seq<Event>, i: nat)
    requires ValidRun(s, es) && Enabled(s.cipher)
    ensures PlainWhileOff(s, es, i)
    decreases |es|
  {
    if es != [] {
      if es[0].SwitchKey? { NewKeyHoldsOld(s.cipher, es[0].key); }
      if es[0].DropKeys? { OnlyCurrentKey(s.cipher); }
      OnStaysOn(Next(s, es[0]), es[1..], i);
    }
  }

  // A connection made under encryption, whatever keys change, rows are re-encrypted,
  // keys are dropped and tokens are refreshed afterwards, opens to the refresh token
  // it was made with and to its latest access token.
  lemma ConnectedTokensKept(s: State, meta: Meta, nonce: Nonces, after: seq<Event>)
    requires Ideal(s.cipher.suite) && NoCollisions(s.cipher.suite) && Enabled(s.cipher)
    requires ValidRun(Next(s, Connect(meta, nonce)), after)
    ensures var i, t := |s.rows|, Run(Next(s, Connect(meta, nonce)), after);
            && i < |t.rows|
            && OpenMeta(t.cipher, t.rows[i]).refreshToken == meta.refreshToken
            && OpenMeta(t.cipher, t.rows[i]).accessToken == LastAccess(after, i, meta.accessToken)
  {
    var t := Next(s, Connect(meta, nonce));
    SealedRow(s.cipher, meta, nonce);
    OnStaysOn(t, after, |s.rows|);
    RunKeepsTokens(t, after, |s.rows|);
  }

  // ---------------- when the previous keys can go ----------------

  // A row that needs the current key only, and whose tags say so.
  ghost predicate CurrentOnly(c: Cipher, m: Meta) {
    !IsStale(c, m) && OpenMeta(DropPrevious(c), m) == OpenMeta(c, m)
  }

  ghost predicate AllCurrent(s: State) {
    s.cipher.available && s.cipher.key != "" && forall i :: 0 <= i < |s.rows| ==> CurrentOnly(s.cipher, s.rows[i])
  }

  lemma SealedIsCurrentOnly(c: Cipher, m: Meta, n: Nonces)
    requires Ideal(c.suite) && c.available && c.key != ""
    ensures CurrentOnly(c, SealMeta(c, m, n))
  {
    var d := DropPrevious(c);
    assert Keys(c)[0] == c.key && Keys(d)[0] == c.key;
    if m.accessToken != "" {
      EncryptedParses(c, m.accessToken, n.access);
      OpensIffKeyHeld(c, d, m.accessToken, n.access);
      OpensIffKeyHeld(c, c, m.accessToken, n.access);
    }
    if m.refreshToken != "" {
      EncryptedParses(c, m.refreshToken, n.refresh);
      OpensIffKeyHeld(c, d, m.refreshToken, n.refresh);
      OpensIffKeyHeld(c, c, m.refreshToken, n.refresh);
    }
  }

  lemma NextAllCurrent(s: State, e: Event)
    requires Ideal(s.cipher.suite) && s.cipher.available && s.cipher.key != "" && Enables(s, e)
    requires e.Reencrypt? || (AllCurrent(s) && !e.SwitchKey?)
    ensures AllCurrent(Next(s, e))
  {
    var c, t := s.cipher, Next(s, e);
    OnlyCurrentKey(c);
    forall i | 0 <= i < |t.rows| ensures CurrentOnly(t.cipher, t.rows[i]) {
      if e.Reencrypt? {
        SealedIsCurrentOnly(c, OpenMeta(c, s.rows[i]), e.nonces[i]);
      } else if e.Connect? {
        if i == |s.rows| { SealedIsCurrentOnly(c, e.meta, e.nonce); }
      } else if e.RefreshRow? && e.row == i {
        var o := OpenMeta(c, s.rows[i]).(accessToken := e.refreshed.accessToken, expiresAt := e.refreshed.expiresAt);
        SealedIsCurrentOnly(c, o, e.refreshed.nonces);
      } else {
        assert CurrentOnly(c, s.rows[i]);
      }
    }
  }

  function KeySteps(es: seq<Event>): seq<KeyStep> {
    if es == [] then []
    else [match es[0]
          case SwitchKey(key) => NewCurrent(key)
          case Reencrypt(_) => ResealAll
          case _ => OtherStep] + KeySteps(es[1..])
  }

  lemma {:induction false} RunAllCurrent(s: State, es: seq<Event>, settled: bool)
    requires Ideal(s.cipher.suite) && s.cipher.available && ValidRun(s, es)
    requires (settled ==> s.cipher.key != "" && AllCurrent(s)) && Settles(KeySteps(es), s.cipher.key, settled)
    ensures AllCurrent(Run(s, es))
    decreases |es|
  {
    hide AllCurrent;
    if es != [] {
      assert KeySteps(es)[1..] == KeySteps(es[1..]);
      var after := !es[0].SwitchKey? && (settled || (es[0].Reencrypt? && s.cipher.key != ""));
      if after { NextAllCurrent(s, es[0]); }
      RunAllCurrent(Next(s, es[0]), es[1..], after);
    }
  }

  // After a run whose last change of key was followed by a re-encryption, whatever
  // was stored, connected or refreshed around it, the report finds nothing stale, so
  // the previous keys may be dropped; and that changes nothing any row opens to.
  lemma PreviousKeysCanGo(s: State, es: seq<Event>)
    requires Ideal(s.cipher.suite) && s.cipher.available && ValidRun(s, es) && Settles(KeySteps(es), s.cipher.key, false)
    ensures Enables(Run(s, es), DropKeys)
    ensures forall i :: 0 <= i < |Run(s, es).rows| ==>
              OpenMeta(DropPrevious(Run(s, es).cipher), Run(s, es).rows[i]) == OpenMeta(Run(s, es).cipher, Run(s, es).rows[i])
  {
    RunAllCurrent(s, es, false);
    var t := Run(s, es);
    OnlyCurrentKey(t.cipher);
    NothingStale(t.cipher, t.rows);
    forall i | 0 <= i < |t.rows| ensures OpenMeta(DropPrevious(t.cipher), t.rows[i]) == OpenMeta(t.cipher, t.rows[i]) {
      assert CurrentOnly(t.cipher, t.rows[i]);
    }
  }

  // The limit of re-encryption, for any row: a token of it that was sealed under some
  // key can still be read, now or with any keys added later, exactly if its key was
  // in the ring.
  lemma UnreadableIsLost(sealer: Cipher, c: Cipher, stored: Meta, token: string, nonces: Nonces, nonce: nat)
    requires Ideal(c.suite) && sealer.suite == c.suite && Enabled(sealer) && Enabled(c) && token != ""
    ensures stored.refreshToken == Encrypt(sealer, token, nonce) ==>
              ((exists d: Cipher :: d.suite == c.suite && OpenMeta(d, ReencryptRow(c, stored, nonces)).refreshToken == token)
               <==> Keys(sealer)[0] in Keys(c))
    ensures stored.accessToken == Encrypt(sealer, token, nonce) ==>
              ((exists d: Cipher :: d.suite == c.suite && OpenMeta(d, ReencryptRow(c, stored, nonces)).accessToken == token)
               <==> Keys(sealer)[0] in Keys(c))
  {
    hide Encrypt, Decrypt;
    EncryptedParses(sealer, token, nonce);
    var after := ReencryptRow(c, stored, nonces);
    if stored.refreshToken == Encrypt(sealer, token, nonce) {
      LostIff(sealer, c, token, nonce, nonces.refresh);
      assert after.refreshToken == Encrypt(c, Decrypt(c, stored.refreshToken), nonces.refresh);
      forall d: Cipher ensures OpenMeta(d, after).refreshToken == Decrypt(d, after.refreshToken) {}
    }
    if stored.accessToken == Encrypt(sealer, token, nonce) {
      LostIff(sealer, c, token, nonce, nonces.access);
      assert after.accessToken == Encrypt(c, Decrypt(c, stored.accessToken), nonces.access);
      forall d: Cipher ensures OpenMeta(d, after).accessToken == Decrypt(d, after.accessToken) {}
    }
  }

  // A concrete row: re-encrypted under a ring without its key, both its tokens are
  // gone, and putting the old key back does not help.
  lemma LostTokens(d: Cipher)
    ensures var meta := Meta("access", "refresh", 0);
            var stored := SealMeta(TOY_OLD, meta, Nonces(0, 0));
            && OpenMeta(TOY_OLD, stored) == meta
            && OpenMeta(d, ReencryptRow(TOY_NEW, stored, Nonces(0, 0))) == Meta("", "", 0)
  {
    ToyRings();
    OpensIffKeyHeld(TOY_OLD, TOY_OLD, "access", 0);
    OpensIffKeyHeld(TOY_OLD, TOY_NEW, "access", 0);
    OpensIffKeyHeld(TOY_OLD, TOY_OLD, "refresh", 0);
    OpensIffKeyHeld(TOY_OLD, TOY_NEW, "refresh", 0);
  }

  // ---------------- the facade ----------------

  class ConnectionsFacade {
    const cipher: Cipher
    var rows: seq<Meta>

    constructor (cipher: Cipher, rows: seq<Meta>)
      ensures this.cipher == cipher && this.rows == rows
    {
      this.cipher := cipher;
      this.rows := rows;
    }

    method Connect(meta: Meta, nonces: Nonces)
      modifies this
      ensures rows == old(rows) + [SealMeta(cipher, meta, nonces)]
    {
      rows := rows + [SealMeta(cipher, meta, nonces)];
    }

    method PersistRefreshedToken(i: nat, plain: Meta, accessToken: string, expiresAt: int, nonces: Nonces)
      requires i < |rows| && plain == OpenMeta(cipher, rows[i])
      modifies this
      ensures rows == old(rows)[i := Persist(cipher, old(rows)[i], Refreshed(accessToken, expiresAt, nonces))]
    {
      var updated := plain;
      updated := updated.(accessToken := accessToken);
      updated := updated.(expiresAt := expiresAt);
      rows := rows[i := SealMeta(cipher, updated, nonces)];
    }

    // One turn of the re-encryption loop.
    method ReencryptRowAt(i: nat, nonces: Nonces) returns (changed: bool)
      requires i < |rows| && Enabled(cipher)
      modifies this`rows
      ensures rows == old(rows)[i := ReencryptRow(cipher, old(rows)[i], nonces)]
      ensures changed <==> rows[i] != old(rows)[i]
    {
      changed := false;
      var meta := rows[i];
      if meta.accessToken != "" || meta.refreshToken != "" {
        var resealed := SealMeta(cipher, OpenMeta(cipher, meta), nonces);
        if resealed != meta {
          rows := rows[i := resealed];
          changed := true;
        }
      }
    }

    method ReencryptTokens(nonces: seq<Nonces>) returns (changed: nat)
      requires |nonces| == |rows|
      modifies this
      ensures rows == ReencryptAll(cipher, old(rows), nonces)
      ensures changed == CountChanged(old(rows), rows, |rows|)
    {
      hide *;
      changed := 0;
      if !Enabled(cipher) {
        DisabledKeeps(cipher, rows, nonces);
        return;
      }
      ghost var start := rows;
      NoneChanged(start, rows, 0);
      var i := 0;
      while i < |rows|
        invariant 0 <= i <= |rows| == |start|
        invariant forall k :: 0 <= k < i ==> rows[k] == ReencryptRow(cipher, start[k], nonces[k])
        invariant forall k :: i <= k < |rows| ==> rows[k] == start[k]
        invariant changed == CountChanged(start, rows, i)
      {
        ghost var before := rows;
        var different := ReencryptRowAt(i, nonces[i]);
        if different {
          changed := changed + 1;
        }
        CountOneMore(start, before, rows, i);
        i := i + 1;
      }
      EachReencrypted(cipher, start, nonces, rows);
    }

    method RotationStatus() returns (total: nat, stale: nat)
      ensures total == CountEncrypted(cipher, rows) && stale == CountStale(cipher, rows)
    {
      total, stale := 0, 0;
      if Enabled(cipher) {
        var i := 0;
        while i < |rows|
          invariant 0 <= i <= |rows|
          invariant total == CountEncrypted(cipher, rows[..i]) && stale == CountStale(cipher, rows[..i])
        {
          assert rows[..i + 1][..i] == rows[..i];
          if HasEncrypted(rows[i]) {
            total := total + 1;
            if IsStale(cipher, rows[i]) {
              stale := stale + 1;
            }
          }
          i := i + 1;
        }
        assert rows[..i] == rows;
      }
    }
  }
}
