/** Provider configs: sealed as a whole at rest, patched through their opened form,
    re-sealed when the key is rotated. */
module Providers {
  import opened Options
  import opened Tables
  import opened TokenCiphers
  import opened Masking
  import opened ConfigTexts

  datatype Vault = Vault(cipher: Cipher, json: Codec)

  ghost predicate Sound(v: Vault) { Ideal(v.cipher.suite) && Faithful(v.json) }

  // The sealed text of a stored config, "" when there is none.
  function Blob(c: Config): string { if ENC in c && c[ENC].Str? then c[ENC].s else "" }

  function SealConfig(v: Vault, c: Config, nonce: nat): Config {
    if c == map[] || !Enabled(v.cipher) then c else map[ENC := Str(Encrypt(v.cipher, v.json.dump(c), nonce))]
  }

  function OpenConfig(v: Vault, c: Config): Config {
    if Blob(c) == "" then c
    else
      var text := Decrypt(v.cipher, Blob(c));
      if text == "" || v.json.load(text).None? then map[] else v.json.load(text).value
  }

  lemma NotItsOwnJson(j: Codec, c: Config)
    requires Faithful(j) && Blob(c) != ""
    ensures j.load(Blob(c)) != Some(c)
  {
    if j.load(Blob(c)).Some? {
      var d := j.load(Blob(c)).value;
      assert ENC in d && d[ENC].Str? ==> |d[ENC].s| < |Blob(c)|;
    }
  }

  // Sealing round-trips, exactly unless encryption is off and the config itself
  // carries text under the reserved key.
  lemma SealedOpens(v: Vault, c: Config, nonce: nat)
    requires Sound(v)
    ensures OpenConfig(v, SealConfig(v, c, nonce)) == c <==> Enabled(v.cipher) || Blob(c) == ""
  {
    if Enabled(v.cipher) && c != map[] {
      RoundTrip(v.cipher, v.json.dump(c), nonce);
      EncryptedParses(v.cipher, v.json.dump(c), nonce);
    } else if Blob(c) != "" {
      NotItsOwnJson(v.json, c);
    }
  }

  // ---------------- updates ----------------

  function Update(v: Vault, stored: Config, patch: Config, nonce: nat): Config {
    SealConfig(v, Merge(patch, OpenConfig(v, stored)), nonce)
  }

  // Sending a provider's masked view back leaves its config as it was: exactly for
  // configs without nulls that sealing can round-trip.
  lemma MaskedViewIsNoChange(v: Vault, stored: Config, nonce: nat)
    requires Sound(v)
    ensures var plain := OpenConfig(v, stored);
            OpenConfig(v, Update(v, stored, MaskConfig(plain), nonce)) == plain
            <==> NoNulls(plain) && (Enabled(v.cipher) || Blob(plain) == "")
  {
    var plain := OpenConfig(v, stored);
    var merged := Merge(MaskConfig(plain), plain);
    MaskedViewMergesBack(plain);
    SealedOpens(v, merged, nonce);
    if !Enabled(v.cipher) && Blob(merged) != "" {
      assert Blob(merged) == Blob(plain);
      NotItsOwnJson(v.json, plain);
    }
  }

  // Under encryption a repeated patch changes nothing more, and two patches are
  // one combined patch.
  lemma PatchesThroughTheVault(v: Vault, stored: Config, p: Config, q: Config, m: nat, n: nat, l: nat)
    requires Sound(v) && Enabled(v.cipher)
    ensures OpenConfig(v, Update(v, stored, p, m)) == Merge(p, OpenConfig(v, stored))
    ensures OpenConfig(v, Update(v, Update(v, stored, p, m), p, n)) == OpenConfig(v, Update(v, stored, p, l))
    ensures OpenConfig(v, Update(v, Update(v, stored, p, m), q, n)) == OpenConfig(v, Update(v, stored, Combine(p, q), l))
  {
    var o := OpenConfig(v, stored);
    SealedOpens(v, Merge(p, o), m);
    SealedOpens(v, Merge(p, o), l);
    SealedOpens(v, Merge(p, Merge(p, o)), n);
    SealedOpens(v, Merge(q, Merge(p, o)), n);
    SealedOpens(v, Merge(Combine(p, q), o), l);
    PatchIsIdempotent(p, o);
    PatchesCombine(p, q, o);
  }

  // ---------------- re-encryption ----------------

  function ReencryptRow(v: Vault, c: Config, nonce: nat): Config {
    if Enabled(v.cipher) && Blob(c) != "" then SealConfig(v, OpenConfig(v, c), nonce) else c
  }

  function ReencryptAll(v: Vault, rows: seq<Config>, nonces: seq<nat>): seq<Config>
    requires |nonces| == |rows|
  {
    seq(|rows|, i requires 0 <= i < |rows| => ReencryptRow(v, rows[i], nonces[i]))
  }

  predicate IsStale(c: Cipher, row: Config) { IsEncrypted(Blob(row)) && !IsCurrent(c, Blob(row)) }

  function CountEncrypted(c: Cipher, rows: seq<Config>): nat {
    if Enabled(c) then CountIf((row: Config) => IsEncrypted(Blob(row)), rows) else 0
  }

  function CountStale(c: Cipher, rows: seq<Config>): nat {
    if Enabled(c) then CountIf((row: Config) => IsStale(c, row), rows) else 0
  }

  // The status report finds nothing stale exactly if no config is.
  lemma NothingStale(c: Cipher, rows: seq<Config>)
    requires Enabled(c)
    ensures CountStale(c, rows) == 0 <==> forall i :: 0 <= i < |rows| ==> !IsStale(c, rows[i])
  {
    NoneCounted((row: Config) => IsStale(c, row), rows);
  }

  // The report's numbers: configs that are one sealed text, and those of them that are
  // stale; nothing without a key.
  lemma ReportNumbers(c: Cipher, rows: seq<Config>)
    ensures CountEncrypted(c, rows) ==
              if !Enabled(c) then 0
              else |set i: nat | i < |rows| && "_enc" in rows[i] && rows[i]["_enc"].Str?
                                 && ("enc:v1:" <= rows[i]["_enc"].s || "enc:v2:" <= rows[i]["_enc"].s)|
    ensures CountStale(c, rows) == if !Enabled(c) then 0 else |set i: nat | i < |rows| && IsStale(c, rows[i])|
  {
    CountIsNumber((row: Config) => IsEncrypted(Blob(row)), rows,
                  set i: nat | i < |rows| && "_enc" in rows[i] && rows[i]["_enc"].Str?
                               && ("enc:v1:" <= rows[i]["_enc"].s || "enc:v2:" <= rows[i]["_enc"].s));
    CountIsNumber((row: Config) => IsStale(c, row), rows, set i: nat | i < |rows| && IsStale(c, rows[i]));
  }

  // ---------------- any run of rotations, updates and new providers ----------------

  datatype State = State(vault: Vault, rows: seq<Config>)

  datatype Event =
      // Restarts with a new current key, and without the previous keys once the
      // report finds nothing stale.
    | SwitchKey(key: string)
    | Reencrypt(nonces: seq<nat>)
    | DropKeys
    | UpdateRow(row: nat, patch: Config, nonce: nat)
    | CreateRow(config: Config, nonce: nat)

  ghost predicate Enables(s: State, e: Event) {
    match e
    case SwitchKey(key) => key != ""
    case Reencrypt(nonces) => |nonces| == |s.rows|
    case DropKeys => s.vault.cipher.key != "" && CountStale(s.vault.cipher, s.rows) == 0
    case UpdateRow(row, _, _) => row < |s.rows|
    case CreateRow(_, _) => true
  }

  function WithNewKey(v: Vault, key: string): Vault { v.(cipher := NewKey(v.cipher, key)) }

  function WithoutPrevious(v: Vault): Vault { v.(cipher := DropPrevious(v.cipher)) }

  function Next(s: State, e: Event): State
    requires e.Reencrypt? ==> |e.nonces| == |s.rows|
    requires e.UpdateRow? ==> e.row < |s.rows|
  {
    match e
    case SwitchKey(key) => s.(vault := WithNewKey(s.vault, key))
    case Reencrypt(nonces) => s.(rows := ReencryptAll(s.vault, s.rows, nonces))
    case DropKeys => s.(vault := WithoutPrevious(s.vault))
    case UpdateRow(row, patch, nonce) => s.(rows := s.rows[row := Update(s.vault, s.rows[row], patch, nonce)])
    case CreateRow(config, nonce) => s.(rows := s.rows + [SealConfig(s.vault, config, nonce)])
  }

  ghost predicate ValidRun(s: State, es: seq<Event>)
    decreases |es|
  {
    es == [] || (Enables(s, es[0]) && ValidRun(Next(s, es[0]), es[1..]))
  }

  ghost function Run(s: State, es: seq<Event>): State
    requires ValidRun(s, es)
    decreases |es|
  {
    if es == [] then s else Run(Next(s, es[0]), es[1..])
  }

  // A config after the patches that a run applies to row i, and to nothing else.
  function Patched(es: seq<Event>, i: nat, start: Config): Config {
    if es == [] then start
    else Patched(es[1..], i, if es[0].UpdateRow? && es[0].row == i then Merge(es[0].patch, start) else start)
  }

  // A stored config that can be read, with a truthful tag.
  ghost predicate RowGood(v: Vault, c: Config) {
    Readable(v.cipher, Blob(c)) && Truthful(v.cipher.suite, Blob(c))
  }

  lemma SealedRow(v: Vault, c: Config, nonce: nat)
    requires Sound(v) && NoCollisions(v.cipher.suite) && Enabled(v.cipher)
    ensures RowGood(v, SealConfig(v, c, nonce)) && OpenConfig(v, SealConfig(v, c, nonce)) == c
  {
    SealedOpens(v, c, nonce);
    if c != map[] { SealedIsTruthful(v.cipher, v.json.dump(c), nonce); }
  }

  // A config is not reported stale exactly if its tag names a key and dropping the
  // previous keys does not lose it.
  lemma StaleIff(c: Cipher, row: Config)
    requires Ideal(c.suite) && Enabled(c) && c.key != "" && Readable(c, Blob(row)) && Truthful(c.suite, Blob(row))
    ensures !IsStale(c, row) <==>
              && Decrypt(DropPrevious(c), Blob(row)) == Decrypt(c, Blob(row))
              && (IsEncrypted(Blob(row)) ==> NamesKey(c.suite, Blob(row)))
  {
    if IsEncrypted(Blob(row)) { CurrentIff(c, Blob(row)); }
  }

  // While no key is set, a config is stored as it is, so it must not look sealed.
  predicate StoresPlain(s: State, e: Event, i: nat) {
    e.UpdateRow? && e.row == i && i < |s.rows| && !Enabled(s.vault.cipher) ==>
      Blob(Merge(e.patch, OpenConfig(s.vault, s.rows[i]))) == ""
  }

  ghost predicate PlainWhileOff(s: State, es: seq<Event>, i: nat)
    requires ValidRun(s, es)
    decreases |es|
  {
    es == [] || (StoresPlain(s, es[0], i) && PlainWhileOff(Next(s, es[0]), es[1..], i))
  }

  lemma NextKeepsRow(s: State, e: Event, i: nat)
    requires Sound(s.vault) && NoCollisions(s.vault.cipher.suite) && Enables(s, e) && StoresPlain(s, e, i)
    requires i < |s.rows| && RowGood(s.vault, s.rows[i])
    ensures var t := Next(s, e);
            && t.vault == s.vault.(cipher := t.vault.cipher) && t.vault.cipher.suite == s.vault.cipher.suite
            && i < |t.rows| && RowGood(t.vault, t.rows[i])
            && OpenConfig(t.vault, t.rows[i]) == Patched([e], i, OpenConfig(s.vault, s.rows[i]))
  {
    assert [e][1..] == [];
    var c, row, plain := s.vault.cipher, s.rows[i], OpenConfig(s.vault, s.rows[i]);
    match e
    case SwitchKey(key) =>
      NewKeyHoldsOld(c, key);
      MoreKeysOpenTheSame(c, NewKey(c, key), Blob(row));
    case Reencrypt(nonces) =>
      if Enabled(c) { SealedRow(s.vault, plain, nonces[i]); }
    case DropKeys =>
      OnlyCurrentKey(c);
      if Enabled(c) {
        NothingStale(c, s.rows);
        StaleIff(c, row);
      }
    case UpdateRow(r, patch, nonce) =>
      if Enabled(c) { SealedRow(s.vault, Merge(patch, plain), nonce); }
    case CreateRow(_, _) =>
  }

  // Over every run in which keys change, configs are re-encrypted, previous keys are
  // dropped when the report finds nothing stale, and updates fall in between: a
  // readable config opens to its original with exactly its own patches applied.  The
  // start may have no key yet, with configs stored as they are.
  lemma {:induction false} RunKeepsConfigs(s: State, es: seq<Event>, i: nat)
    requires Sound(s.vault) && NoCollisions(s.vault.cipher.suite) && ValidRun(s, es) && PlainWhileOff(s, es, i)
    requires i < |s.rows| && RowGood(s.vault, s.rows[i])
    ensures var t := Run(s, es);
            && i < |t.rows| && RowGood(t.vault, t.rows[i])
            && OpenConfig(t.vault, t.rows[i]) == Patched(es, i, OpenConfig(s.vault, s.rows[i]))
    decreases |es|
  {
    hide RowGood, OpenConfig;
    if es != [] {
      NextKeepsRow(s, es[0], i);
      assert [es[0]][1..] == [];
      RunKeepsConfigs(Next(s, es[0]), es[1..], i);
    }
  }

  function ValueOf(c: Config, k: string): Option<Json> { if k in c then Some(c[k]) else None }

  // The value that the updates of row i leave under key k along a run: a mask says
  // nothing, null takes the key away, and any other value is what it holds.
  function LastValue(es: seq<Event>, i: nat, k: string, start: Option<Json>): Option<Json> {
    if es == [] then start
    else
      LastValue(es[1..], i, k,
                if es[0].UpdateRow? && es[0].row == i && k in es[0].patch && es[0].patch[k] != Str(MASK)
                then (if es[0].patch[k].Null? then None else Some(es[0].patch[k]))
                else start)
  }

  lemma {:induction false} PatchedValue(es: seq<Event>, i: nat, start: Config, k: string)
    ensures ValueOf(Patched(es, i, start), k) == LastValue(es, i, k, ValueOf(start, k))
  {
    hide Merge;
    if es != [] {
      var e := es[0];
      if e.UpdateRow? && e.row == i {
        MergeByCases(e.patch, start, k);
        PatchedValue(es[1..], i, Merge(e.patch, start), k);
      } else {
        PatchedValue(es[1..], i, start, k);
      }
    }
  }

  // Over every such run each key of a config opens to the last value that its own
  // updates gave it.
  lemma RunKeepsValues(s: State, es: seq<Event>, i: nat, k: string)
    requires Sound(s.vault) && NoCollisions(s.vault.cipher.suite) && ValidRun(s, es) && PlainWhileOff(s, es, i)
    requires i < |s.rows| && RowGood(s.vault, s.rows[i])
    ensures var t := Run(s, es);
            && i < |t.rows|
            && ValueOf(OpenConfig(t.vault, t.rows[i]), k) == LastValue(es, i, k, ValueOf(OpenConfig(s.vault, s.rows[i]), k))
  {
    RunKeepsConfigs(s, es, i);
    PatchedValue(es, i, OpenConfig(s.vault, s.rows[i]), k);
  }

  // ---------------- nothing readable at rest ----------------

  // Stored is nothing, or one sealed text and no other key.
  predicate AtRest(c: Config) {
    c == map[] || (c.Keys == {"_enc"} && c["_enc"].Str? && "enc:v2:" <= c["_enc"].s)
  }

  lemma SealedIsAtRest(v: Vault, c: Config, nonce: nat)
    requires Enabled(v.cipher) && v.json.dump(c) != ""
    ensures AtRest(SealConfig(v, c, nonce))
  {
    EncryptedIsTagged(v.cipher, v.json.dump(c), nonce);
  }

  // Under encryption a row at rest stays so over every run, and an update puts any
  // row at rest; so does creating one.
  lemma {:induction false} StaysAtRest(s: State, es: seq<Event>, i: nat)
    requires Sound(s.vault) && Enabled(s.vault.cipher) && ValidRun(s, es) && i < |s.rows|
    requires AtRest(s.rows[i]) || exists j :: 0 <= j < |es| && es[j].UpdateRow? && es[j].row == i
    ensures i < |Run(s, es).rows| && AtRest(Run(s, es).rows[i])
    decreases |es|
  {
    hide AtRest;
    if es != [] {
      var e := es[0];
      NextAtRest(s, e, i);
      if !AtRest(s.rows[i]) && !(e.UpdateRow? && e.row == i) {
        var j :| 0 <= j < |es| && es[j].UpdateRow? && es[j].row == i;
        assert es[1..][j - 1] == es[j];
      }
      StaysAtRest(Next(s, e), es[1..], i);
    }
  }

  lemma NextAtRest(s: State, e: Event, i: nat)
    requires Sound(s.vault) && Enabled(s.vault.cipher) && Enables(s, e) && i < |s.rows|
    ensures var t := Next(s, e);
            && i < |t.rows| && Enabled(t.vault.cipher) && Sound(t.vault)
            && (AtRest(s.rows[i]) || (e.UpdateRow? && e.row == i) ==> AtRest(t.rows[i]))
  {
    hide AtRest, SealConfig, OpenConfig;
    match e
    case SwitchKey(key) => NewKeyHoldsOld(s.vault.cipher, key);
    case Reencrypt(nonces) => SealedIsAtRest(s.vault, OpenConfig(s.vault, s.rows[i]), nonces[i]);
    case DropKeys => OnlyCurrentKey(s.vault.cipher);
    case UpdateRow(row, patch, nonce) => SealedIsAtRest(s.vault, Merge(patch, OpenConfig(s.vault, s.rows[row])), nonce);
    case CreateRow(_, _) =>
  }

  // Once on, encryption stays on.
  lemma {:induction false} OnStaysOn(s: State, es: seq<Event>, i: nat)
    requires ValidRun(s, es) && Enabled(s.vault.cipher)
    ensures PlainWhileOff(s, es, i)
    decreases |es|
  {
    if es != [] {
      if es[0].SwitchKey? { NewKeyHoldsOld(s.vault.cipher, es[0].key); }
      if es[0].DropKeys? { OnlyCurrentKey(s.vault.cipher); }
      OnStaysOn(Next(s, es[0]), es[1..], i);
    }
  }

  // A provider created under encryption, whatever keys change, configs are
  // re-encrypted and keys are dropped afterwards, opens to the config it was created
  // with and exactly its own patches.
  lemma CreatedConfigKept(s: State, config: Config, nonce: nat, after: seq<Event>)
    requires Sound(s.vault) && NoCollisions(s.vault.cipher.suite) && Enabled(s.vault.cipher)
    requires ValidRun(Next(s, CreateRow(config, nonce)), after)
    ensures var i, t := |s.rows|, Run(Next(s, CreateRow(config, nonce)), after);
            i < |t.rows| && OpenConfig(t.vault, t.rows[i]) == Patched(after, i, config)
  {
    var t := Next(s, CreateRow(config, nonce));
    SealedRow(s.vault, config, nonce);
    OnStaysOn(t, after, |s.rows|);
    RunKeepsConfigs(t, after, |s.rows|);
  }

  // ---------------- when the previous keys can go ----------------

  ghost predicate CurrentOnly(v: Vault, c: Config) {
    !IsStale(v.cipher, c) && OpenConfig(WithoutPrevious(v), c) == OpenConfig(v, c)
  }

  ghost predicate AllCurrent(s: State) {
    && s.vault.cipher.available && s.vault.cipher.key != ""
    && forall i :: 0 <= i < |s.rows| ==> CurrentOnly(s.vault, s.rows[i])
  }

  lemma SealedIsCurrentOnly(v: Vault, c: Config, nonce: nat)
    requires Sound(v) && v.cipher.available && v.cipher.key != ""
    ensures CurrentOnly(v, SealConfig(v, c, nonce))
  {
    if c != map[] {
      var d := DropPrevious(v.cipher);
      assert Keys(v.cipher)[0] == v.cipher.key && Keys(d)[0] == v.cipher.key;
      EncryptedParses(v.cipher, v.json.dump(c), nonce);
      OpensIffKeyHeld(v.cipher, d, v.json.dump(c), nonce);
      OpensIffKeyHeld(v.cipher, v.cipher, v.json.dump(c), nonce);
    }
  }

  lemma NextAllCurrent(s: State, e: Event)
    requires Sound(s.vault) && s.vault.cipher.available && s.vault.cipher.key != "" && Enables(s, e)
    requires e.Reencrypt? || (AllCurrent(s) && !e.SwitchKey?)
    ensures AllCurrent(Next(s, e))
  {
    var v, t := s.vault, Next(s, e);
    OnlyCurrentKey(v.cipher);
    forall i | 0 <= i < |t.rows| ensures CurrentOnly(t.vault, t.rows[i]) {
      if e.Reencrypt? {
        SealedIsCurrentOnly(v, OpenConfig(v, s.rows[i]), e.nonces[i]);
      } else if e.CreateRow? {
        if i == |s.rows| { SealedIsCurrentOnly(v, e.config, e.nonce); }
      } else if e.UpdateRow? && e.row == i {
        SealedIsCurrentOnly(v, Merge(e.patch, OpenConfig(v, s.rows[i])), e.nonce);
      } else {
        assert CurrentOnly(v, s.rows[i]);
      }
    }
  }

  function KeySteps(es: seq<Event>): seq<KeyStep> {
    if es == [] then []
    else [match es[0]
          case SwitchKey(key) => NewCurrent(key)
          case Reencrypt(_) => ResealAll
          case _ => OtherStep] + KeySteps(es[1..])
  }

  lemma {:induction false} RunAllCurrent(s: State, es: seq<Event>, settled: bool)
    requires Sound(s.vault) && s.vault.cipher.available && ValidRun(s, es)
    requires (settled ==> s.vault.cipher.key != "" && AllCurrent(s))
    requires Settles(KeySteps(es), s.vault.cipher.key, settled)
    ensures AllCurrent(Run(s, es))
    decreases |es|
  {
    hide AllCurrent;
    if es != [] {
      assert KeySteps(es)[1..] == KeySteps(es[1..]);
      var after := !es[0].SwitchKey? && (settled || (es[0].Reencrypt? && s.vault.cipher.key != ""));
      if after { NextAllCurrent(s, es[0]); }
      RunAllCurrent(Next(s, es[0]), es[1..], after);
    }
  }

  // After a run whose last change of key was followed by a re-encryption, whatever
  // was stored or updated around it, the report finds nothing stale, so the previous
  // keys may be dropped; and then every config opens to the same.
  lemma PreviousKeysCanGo(s: State, es: seq<Event>)
    requires Sound(s.vault) && s.vault.cipher.available && ValidRun(s, es) && Settles(KeySteps(es), s.vault.cipher.key, false)
    ensures Enables(Run(s, es), DropKeys)
    ensures forall i :: 0 <= i < |Run(s, es).rows| ==>
              OpenConfig(WithoutPrevious(Run(s, es).vault), Run(s, es).rows[i]) == OpenConfig(Run(s, es).vault, Run(s, es).rows[i])
  {
    RunAllCurrent(s, es, false);
    var t := Run(s, es);
    OnlyCurrentKey(t.vault.cipher);
    NothingStale(t.vault.cipher, t.rows);
    forall i | 0 <= i < |t.rows| ensures OpenConfig(WithoutPrevious(t.vault), t.rows[i]) == OpenConfig(t.vault, t.rows[i]) {
      assert CurrentOnly(t.vault, t.rows[i]);
    }
  }

  // The limit of re-encryption: a config sealed under some key can still be read, now
  // or with any keys added later, exactly if its key was in the ring; otherwise the
  // empty config takes its place.
  lemma UnreadableIsLost(sealer: Vault, v: Vault, config: Config, m: nat, n: nat)
    requires Sound(v) && sealer == v.(cipher := sealer.cipher) && sealer.cipher.suite == v.cipher.suite
    requires Enabled(sealer.cipher) && Enabled(v.cipher) && config != map[]
    ensures (exists d: Vault :: d == v.(cipher := d.cipher) && d.cipher.suite == v.cipher.suite &&
               OpenConfig(d, ReencryptRow(v, SealConfig(sealer, config, m), n)) == config)
       <==> Keys(sealer.cipher)[0] in Keys(v.cipher)
  {
    var stored := SealConfig(sealer, config, m);
    EncryptedParses(sealer.cipher, v.json.dump(config), m);
    OpensIffKeyHeld(sealer.cipher, v.cipher, v.json.dump(config), m);
    if Keys(sealer.cipher)[0] in Keys(v.cipher) {
      assert OpenConfig(v, stored) == config;
      SealedOpens(v, config, n);
      assert OpenConfig(v, ReencryptRow(v, stored, n)) == config;
    } else {
      assert ReencryptRow(v, stored, n) == map[];
    }
  }

  // A concrete config: re-encrypted under a ring without its key it is gone, and
  // putting the old key back does not help.
  lemma LostConfig(d: Vault)
    ensures var config: Config := map["k" := Str("secret")];
            var sealer, v := Vault(TOY_OLD, TOY_CODEC), Vault(TOY_NEW, TOY_CODEC);
            var stored := SealConfig(sealer, config, 0);
            && Sound(v) && OpenConfig(sealer, stored) == config
            && OpenConfig(d, ReencryptRow(v, stored, 0)) == map[]
  {
    var config: Config := map["k" := Str("secret")];
    var sealer, v := Vault(TOY_OLD, TOY_CODEC), Vault(TOY_NEW, TOY_CODEC);
    ToyRings();
    FaithfulIsPossible();
    assert "k" in config;
    SealedOpens(sealer, config, 0);
    EncryptedParses(sealer.cipher, TOY_CODEC.dump(config), 0);
    OpensIffKeyHeld(sealer.cipher, v.cipher, TOY_CODEC.dump(config), 0);
  }

  // ---------------- the facade ----------------

  datatype Provider = Provider(key: string, name: string, enabled: bool, config: Config)

  function Configs(ps: seq<Provider>): seq<Config> {
    seq(|ps|, i requires 0 <= i < |ps| => ps[i].config)
  }

  // Only the config of a provider is sealed again.
  function Resealed(v: Vault, p: Provider, nonce: nat): Provider { p.(config := ReencryptRow(v, p.config, nonce)) }

  lemma DisabledKeeps(v: Vault, ps: seq<Provider>, nonces: seq<nat>)
    requires |nonces| == |ps| && !Enabled(v.cipher)
    ensures forall i :: 0 <= i < |ps| ==> Resealed(v, ps[i], nonces[i]) == ps[i]
    ensures CountChanged(ps, ps, |ps|) == 0
  {
    NoneChanged(ps, ps, |ps|);
  }

  class ProvidersFacade {
    const vault: Vault
    var providers: seq<Provider>

    constructor (vault: Vault, providers: seq<Provider>)
      ensures this.vault == vault && this.providers == providers
    {
      this.vault := vault;
      this.providers := providers;
    }

    // A key that is taken is a conflict.
    method CreateProvider(key: string, name: string, enabled: bool, config: Config, nonce: nat)
      returns (shown: Option<Config>)
      modifies this
      ensures shown.None? <==> exists i :: 0 <= i < |old(providers)| && old(providers)[i].key == key
      ensures shown.None? ==> providers == old(providers)
      ensures shown.Some? ==>
                && providers == old(providers) + [Provider(key, name, enabled, SealConfig(vault, config, nonce))]
                && shown.value == OpenConfig(vault, SealConfig(vault, config, nonce))
    {
      if exists i :: 0 <= i < |providers| && providers[i].key == key {
        return None;
      }
      var row := Provider(key, name, enabled, SealConfig(vault, config, nonce));
      providers := providers + [row];
      shown := Some(OpenConfig(vault, row.config));
    }

    // `id` is the row's position; the answer is the opened config of the updated row.
    method UpdateProvider(id: nat, name: Option<string>, enabled: Option<bool>, config: Option<Config>, nonce: nat)
      returns (shown: Option<Config>)
      modifies this
      ensures shown.Some? <==> id < |old(providers)|
      ensures shown.None? ==> providers == old(providers)
      ensures shown.Some? ==>
                && |providers| == |old(providers)|
                && (forall i :: 0 <= i < |providers| && i != id ==> providers[i] == old(providers)[i])
                && providers[id].key == old(providers)[id].key
                && providers[id].name == (if name.Some? then name.value else old(providers)[id].name)
                && providers[id].enabled == (if enabled.Some? then enabled.value else old(providers)[id].enabled)
                && providers[id].config ==
                     (if config.Some? then Update(vault, old(providers)[id].config, config.value, nonce)
                      else old(providers)[id].config)
                && shown.value == OpenConfig(vault, providers[id].config)
    {
      if id >= |providers| {
        return None;
      }
      var row := providers[id];
      if name.Some? {
        row := row.(name := name.value);
      }
      if enabled.Some? {
        row := row.(enabled := enabled.value);
      }
      if config.Some? {
        var existing := OpenConfig(vault, row.config);
        var merged := MergeWithExisting(config.value, existing);
        row := row.(config := SealConfig(vault, merged, nonce));
      }
      providers := providers[id := row];
      shown := Some(OpenConfig(vault, row.config));
    }

    // One turn of the re-encryption loop.
    method ReencryptProvider(i: nat, nonce: nat) returns (changed: bool)
      requires i < |providers| && Enabled(vault.cipher)
      modifies this`providers
      ensures providers == old(providers)[i := Resealed(vault, old(providers)[i], nonce)]
      ensures changed <==> providers[i] != old(providers)[i]
    {
      changed := false;
      var cfg := providers[i].config;
      if Blob(cfg) != "" {
        var resealed := SealConfig(vault, OpenConfig(vault, cfg), nonce);
        if resealed != cfg {
          providers := providers[i := providers[i].(config := resealed)];
          changed := true;
        }
      }
    }

    method ReencryptConfigs(nonces: seq<nat>) returns (changed: nat)
      requires |nonces| == |providers|
      modifies this
      ensures |providers| == |old(providers)|
      ensures forall i :: 0 <= i < |providers| ==> providers[i] == Resealed(vault, old(providers)[i], nonces[i])
      ensures changed == CountChanged(old(providers), providers, |providers|)
    {
      hide *;
      changed := 0;
      if !Enabled(vault.cipher) {
        DisabledKeeps(vault, providers, nonces);
        return;
      }
      ghost var start := providers;
      NoneChanged(start, providers, 0);
      var i := 0;
      while i < |providers|
        invariant 0 <= i <= |providers| == |start|
        invariant forall k :: 0 <= k < i ==> providers[k] == Resealed(vault, start[k], nonces[k])
        invariant forall k :: i <= k < |providers| ==> providers[k] == start[k]
        invariant changed == CountChanged(start, providers, i)
      {
        ghost var before := providers;
        var different := ReencryptProvider(i, nonces[i]);
        if different {
          changed := changed + 1;
        }
        CountOneMore(start, before, providers, i);
        i := i + 1;
      }
    }

    method RotationStatus() returns (total: nat, stale: nat)
      ensures total == CountEncrypted(vault.cipher, Configs(providers))
      ensures stale == CountStale(vault.cipher, Configs(providers))
    {
      hide IsEncrypted, IsCurrent, Enabled;
      total, stale := 0, 0;
      var rows := Configs(providers);
      if Enabled(vault.cipher) {
        var i := 0;
        while i < |rows|
          invariant 0 <= i <= |rows|
          invariant total == CountEncrypted(vault.cipher, rows[..i]) && stale == CountStale(vault.cipher, rows[..i])
        {
          assert rows[..i + 1][..i] == rows[..i];
          if IsEncrypted(Blob(rows[i])) {
            total := total + 1;
            if !IsCurrent(vault.cipher, Blob(rows[i])) {
              stale := stale + 1;
            }
          }
          i := i + 1;
        }
        assert rows[..i] == rows;
      }
    }
  }
}
