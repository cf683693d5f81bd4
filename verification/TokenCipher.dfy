/** Encryption of secrets at rest: the tagged ciphertext format, decryption under
    any of several keys, and rotation of one value.

    The Fernet recipe is a parameter: any functions that behave as an ideal
    authenticated cipher.  "" stands for Python's None and "" alike wherever the
    code only tests for truth. */
module TokenCiphers {
  import opened Options

  const PREFIX_V1: string := "enc:v1:"
  const PREFIX_V2: string := "enc:v2:"

  datatype Suite = Suite(
    seal: (string, nat, string) -> string,      // key, nonce, plaintext
    unseal: (string, string) -> Option<string>, // key, token
    fingerprint: string -> string)

  // A token opens to what was sealed, under no key but its own; a fingerprint is
  // a non-empty text without a colon.
  ghost predicate Ideal(f: Suite) {
    && (forall k, n, p :: f.unseal(k, f.seal(k, n, p)) == Some(p))
    && (forall k, l, t :: f.unseal(k, t).Some? && f.unseal(l, t).Some? ==> k == l)
    && (forall k :: f.fingerprint(k) != "" && ':' !in f.fingerprint(k))
  }

  datatype Cipher = Cipher(suite: Suite, key: string, previous: seq<string>, available: bool)

  function NonEmpty(keys: seq<string>): seq<string> {
    if keys == [] then []
    else (if keys[0] != "" then [keys[0]] else []) + NonEmpty(keys[1..])
  }

  function Keys(c: Cipher): seq<string> { NonEmpty([c.key] + c.previous) }

  // The cryptography package is there and at least one key is set.
  predicate Enabled(c: Cipher) { c.available && Keys(c) != [] }

  function CurrentKeyId(c: Cipher): Option<string> {
    if Enabled(c) && c.key != "" then Some(c.suite.fingerprint(c.key)) else None
  }

  // ---------------- the tagged format ----------------

  function BeforeColon(s: string): string {
    if s == "" || s[0] == ':' then "" else [s[0]] + BeforeColon(s[1..])
  }

  function AfterColon(s: string): string {
    if s == "" then "" else if s[0] == ':' then s[1..] else AfterColon(s[1..])
  }

  function Strip(value: string): Option<string> {
    if PREFIX_V2 <= value then Some(AfterColon(value[|PREFIX_V2|..]))
    else if PREFIX_V1 <= value then Some(value[|PREFIX_V1|..])
    else None
  }

  predicate IsEncrypted(value: string) { PREFIX_V1 <= value || PREFIX_V2 <= value }

  function KeyId(value: string): Option<string> {
    if PREFIX_V2 <= value then
      var kid := BeforeColon(value[|PREFIX_V2|..]);
      if kid == "" then None else Some(kid)
    else None
  }

  predicate IsCurrent(c: Cipher, value: string) {
    CurrentKeyId(c).Some? && KeyId(value) == CurrentKeyId(c)
  }

  // A missing key id is printed as Python prints None.
  function KidText(c: Cipher): string {
    if CurrentKeyId(c).Some? then CurrentKeyId(c).value else "None"
  }

  // ---------------- encrypt, decrypt, rotate ----------------

  function Encrypt(c: Cipher, plaintext: string, nonce: nat): string {
    if plaintext == "" || !Enabled(c) then plaintext
    else PREFIX_V2 + KidText(c) + ":" + c.suite.seal(Keys(c)[0], nonce, plaintext)
  }

  function UnsealAny(f: Suite, keys: seq<string>, token: string): Option<string> {
    if keys == [] then None
    else if f.unseal(keys[0], token).Some? then f.unseal(keys[0], token)
    else UnsealAny(f, keys[1..], token)
  }

  function Decrypt(c: Cipher, value: string): string {
    var token := Strip(value);
    if token.None? then value
    else if !Enabled(c) then ""
    else
      var plain := UnsealAny(c.suite, Keys(c), token.value);
      if plain.Some? then plain.value else ""
  }

  function Rotate(c: Cipher, value: string, nonce: nat): string {
    if !IsEncrypted(value) || !Enabled(c) then value
    else
      var plain := Decrypt(c, value);
      if plain == "" then value else Encrypt(c, plain, nonce)
  }

  // ---------------- the format round-trips ----------------

  lemma {:induction false} ColonSplits(kid: string, token: string)
    requires ':' !in kid
    ensures BeforeColon(kid + ":" + token) == kid && AfterColon(kid + ":" + token) == token
  {
    if kid == "" {
      assert kid + ":" + token == [':'] + token;
    } else {
      assert (kid + ":" + token)[1..] == kid[1..] + ":" + token;
      ColonSplits(kid[1..], token);
    }
  }

  lemma TaggedParses(kid: string, token: string)
    requires ':' !in kid && kid != ""
    ensures var v := PREFIX_V2 + kid + ":" + token;
            IsEncrypted(v) && Strip(v) == Some(token) && KeyId(v) == Some(kid)
  {
    var v := PREFIX_V2 + kid + ":" + token;
    assert v == PREFIX_V2 + (kid + ":" + token);
    assert v[|PREFIX_V2|..] == kid + ":" + token;
    ColonSplits(kid, token);
  }

  lemma EncryptedParses(c: Cipher, plaintext: string, nonce: nat)
    requires Ideal(c.suite) && plaintext != "" && Enabled(c)
    ensures var v := Encrypt(c, plaintext, nonce);
            && IsEncrypted(v)
            && Strip(v) == Some(c.suite.seal(Keys(c)[0], nonce, plaintext))
            && KeyId(v) == Some(KidText(c))
  {
    TaggedParses(KidText(c), c.suite.seal(Keys(c)[0], nonce, plaintext));
  }

  // The stored form: the version, the current key's fingerprint, the token.
  lemma EncryptedIsTagged(c: Cipher, plaintext: string, nonce: nat)
    requires Enabled(c) && plaintext != ""
    ensures "enc:v2:" <= Encrypt(c, plaintext, nonce)
    ensures c.key != "" ==>
              Encrypt(c, plaintext, nonce) == "enc:v2:" + c.suite.fingerprint(c.key) + ":" + c.suite.seal(c.key, nonce, plaintext)
  {
    assert c.key != "" ==> Keys(c)[0] == c.key;
  }

  // Text sealed before tags named keys opens exactly while its key is held, and is never
  // current.
  lemma OldFormatOpensIffKeyHeld(c: Cipher, key: string, plaintext: string, nonce: nat)
    requires Ideal(c.suite) && plaintext != ""
    ensures var v := "enc:v1:" + c.suite.seal(key, nonce, plaintext);
            && IsEncrypted(v) && KeyId(v) == None && !IsCurrent(c, v)
            && Decrypt(c, v) == (if Enabled(c) && key in Keys(c) then plaintext else "")
  {
    var token := c.suite.seal(key, nonce, plaintext);
    var v := "enc:v1:" + token;
    assert v[|PREFIX_V1|..] == token;
    assert v[5] == '1' && PREFIX_V2[5] == '2';
    UnsealAnyIff(c.suite, Keys(c), token, key);
  }

  // The first key that opens a token is the only one, so the order is immaterial.
  lemma {:induction false} UnsealAnyIff(f: Suite, keys: seq<string>, token: string, k: string)
    requires Ideal(f) && f.unseal(k, token).Some?
    ensures UnsealAny(f, keys, token) == if k in keys then f.unseal(k, token) else None
  {
    if keys != [] { UnsealAnyIff(f, keys[1..], token, k); }
  }

  lemma {:induction false} UnsealAnyWitness(f: Suite, keys: seq<string>, token: string)
    ensures UnsealAny(f, keys, token).Some? <==> exists k :: k in keys && f.unseal(k, token).Some?
  {
    if keys != [] {
      UnsealAnyWitness(f, keys[1..], token);
      if exists k :: k in keys && f.unseal(k, token).Some? {
        var k :| k in keys && f.unseal(k, token).Some?;
        assert k == keys[0] || k in keys[1..];
      }
      if UnsealAny(f, keys, token).Some? && !f.unseal(keys[0], token).Some? {
        var k :| k in keys[1..] && f.unseal(k, token).Some?;
        assert k in keys;
      }
    }
  }

  // A ciphertext of any non-empty text, itself tagged or not, opens to that text
  // under exactly the ciphers that hold the sealing key.
  lemma OpensIffKeyHeld(c: Cipher, d: Cipher, plaintext: string, nonce: nat)
    requires Ideal(c.suite) && d.suite == c.suite && Enabled(c) && plaintext != ""
    ensures Decrypt(d, Encrypt(c, plaintext, nonce)) == plaintext <==> Enabled(d) && Keys(c)[0] in Keys(d)
    ensures Decrypt(d, Encrypt(c, plaintext, nonce)) in {plaintext, ""}
  {
    EncryptedParses(c, plaintext, nonce);
    UnsealAnyIff(c.suite, Keys(d), c.suite.seal(Keys(c)[0], nonce, plaintext), Keys(c)[0]);
  }

  lemma RoundTrip(c: Cipher, plaintext: string, nonce: nat)
    requires Ideal(c.suite)
    ensures Decrypt(c, Encrypt(c, plaintext, nonce)) == plaintext <==> Enabled(c) || !IsEncrypted(plaintext)
  {
    if plaintext != "" && Enabled(c) { OpensIffKeyHeld(c, c, plaintext, nonce); }
  }

  // Rotation never changes what a value decrypts to, for any value and any cipher.
  lemma RotateKeepsPlaintext(c: Cipher, value: string, nonce: nat)
    requires Ideal(c.suite)
    ensures Decrypt(c, Rotate(c, value, nonce)) == Decrypt(c, value)
  {
    if Enabled(c) { RoundTrip(c, Decrypt(c, value), nonce); }
  }

  // What cannot be opened, or is not sealed, stays as it is.
  lemma RotateLeavesUnreadable(c: Cipher, value: string, nonce: nat)
    requires !IsEncrypted(value) || Decrypt(c, value) == ""
    ensures Rotate(c, value, nonce) == value
  {}

  // With a current key set, rotation makes current exactly the tagged values it
  // can read; others were current before or are not afterwards.
  lemma RotateMakesCurrent(c: Cipher, value: string, nonce: nat)
    requires Ideal(c.suite) && Enabled(c) && IsEncrypted(value)
    ensures IsCurrent(c, Rotate(c, value, nonce)) <==>
              c.key != "" && (Decrypt(c, value) != "" || IsCurrent(c, value))
  {
    if Decrypt(c, value) != "" { EncryptedParses(c, Decrypt(c, value), nonce); }
  }

  // Adding keys never changes what an already readable value opens to.
  lemma MoreKeysOpenTheSame(c: Cipher, d: Cipher, value: string)
    requires Ideal(c.suite) && d.suite == c.suite && Readable(c, value)
    requires Enabled(c) ==> Enabled(d) && forall k <- Keys(c) :: k in Keys(d)
    ensures Decrypt(d, value) == Decrypt(c, value) && Readable(d, value)
  {
    var token := Strip(value);
    if token.Some? {
      UnsealAnyWitness(c.suite, Keys(c), token.value);
      var k :| k in Keys(c) && c.suite.unseal(k, token.value).Some?;
      UnsealAnyIff(c.suite, Keys(c), token.value, k);
      UnsealAnyIff(c.suite, Keys(d), token.value, k);
    }
  }

  // Untagged text, or a tagged value that the cipher can open.
  predicate Readable(c: Cipher, value: string) { IsEncrypted(value) ==> Decrypt(c, value) != "" }

  // A cipher with a new current key and the old ones kept as previous keys.
  function NewKey(c: Cipher, key: string): Cipher { Cipher(c.suite, key, [c.key] + c.previous, c.available) }

  // The same cipher after its previous keys are dropped.
  function DropPrevious(c: Cipher): Cipher { c.(previous := []) }

  lemma NewKeyHoldsOld(c: Cipher, key: string)
    requires key != ""
    ensures Keys(NewKey(c, key)) == [key] + Keys(c)
    ensures Keys(DropPrevious(NewKey(c, key))) == [key]
    ensures c.available ==> Enabled(NewKey(c, key)) && Enabled(DropPrevious(NewKey(c, key)))
  {
    var d := NewKey(c, key);
    assert ([d.key] + d.previous)[1..] == [c.key] + c.previous;
    assert ([key] + [])[1..] == [];
    assert NonEmpty([]) == [];
  }

  // ---------------- what the stale report means ----------------

  // If the tag carries a key's fingerprint, it is that of the key that opens the token.
  ghost predicate Truthful(f: Suite, value: string) {
    forall k, l :: Strip(value).Some? && f.unseal(k, Strip(value).value).Some? && KeyId(value) == Some(f.fingerprint(l)) ==> k == l
  }

  ghost predicate NamesKey(f: Suite, value: string) { exists l :: KeyId(value) == Some(f.fingerprint(l)) }

  // Fingerprints tell keys apart, and from the text that stands for no key.
  ghost predicate NoCollisions(f: Suite) {
    && (forall k, l :: f.fingerprint(k) == f.fingerprint(l) ==> k == l)
    && (forall k :: f.fingerprint(k) != "None")
  }

  // Whatever is sealed is readable for its cipher and has a truthful tag.
  lemma SealedIsTruthful(c: Cipher, plaintext: string, nonce: nat)
    requires Ideal(c.suite) && NoCollisions(c.suite) && Enabled(c)
    ensures Truthful(c.suite, Encrypt(c, plaintext, nonce)) && Readable(c, Encrypt(c, plaintext, nonce))
  {
    if plaintext != "" {
      EncryptedParses(c, plaintext, nonce);
      RoundTrip(c, plaintext, nonce);
      assert c.key != "" ==> Keys(c)[0] == c.key;
    }
  }

  lemma OnlyCurrentKey(c: Cipher)
    requires c.key != ""
    ensures Keys(DropPrevious(c)) == [c.key] && c.key in Keys(c)
  {
    assert ([c.key] + [])[1..] == [] && NonEmpty([]) == [];
  }

  // A readable value with a truthful tag is current exactly if its tag names a key
  // and the current key alone opens it: what is not reported stale is safe when the
  // previous keys are dropped, and what is reported would be lost or has an old tag.
  lemma CurrentIff(c: Cipher, value: string)
    requires Ideal(c.suite) && Enabled(c) && c.key != ""
    requires IsEncrypted(value) && Readable(c, value) && Truthful(c.suite, value)
    ensures IsCurrent(c, value) <==> NamesKey(c.suite, value) && Decrypt(DropPrevious(c), value) == Decrypt(c, value)
  {
    var token := Strip(value).value;
    OnlyCurrentKey(c);
    UnsealAnyWitness(c.suite, Keys(c), token);
    var k :| k in Keys(c) && c.suite.unseal(k, token).Some?;
    UnsealAnyIff(c.suite, Keys(c), token, k);
    UnsealAnyIff(c.suite, [c.key], token, k);
  }

  // Sealing again what could not be opened: the text can be read afterwards, under
  // any keys at all, exactly if its sealing key was held.
  lemma LostIff(sealer: Cipher, c: Cipher, plaintext: string, nonce: nat, n: nat)
    requires Ideal(c.suite) && sealer.suite == c.suite && Enabled(sealer) && Enabled(c) && plaintext != ""
    ensures (exists d: Cipher :: d.suite == c.suite &&
               Decrypt(d, Encrypt(c, Decrypt(c, Encrypt(sealer, plaintext, nonce)), n)) == plaintext)
       <==> Keys(sealer)[0] in Keys(c)
  {
    OpensIffKeyHeld(sealer, c, plaintext, nonce);
    if Keys(sealer)[0] in Keys(c) {
      RoundTrip(c, plaintext, n);
      assert Decrypt(c, Encrypt(c, Decrypt(c, Encrypt(sealer, plaintext, nonce)), n)) == plaintext;
    }
  }

  // ---------------- when the previous keys can go ----------------

  // What a step of a service does about keys.
  datatype KeyStep = NewCurrent(key: string) | ResealAll | OtherStep

  // Whether the last change of key is followed by a re-encryption under a current
  // key; `key` and `settled` describe the start.
  predicate Settles(steps: seq<KeyStep>, key: string, settled: bool) {
    if steps == [] then settled
    else if steps[0].NewCurrent? then Settles(steps[1..], steps[0].key, false)
    else Settles(steps[1..], key, settled || (steps[0].ResealAll? && key != ""))
  }

  // ---------------- the assumption can be met ----------------

  function Ones(n: nat): string { if n == 0 then "" else "1" + Ones(n - 1) }

  function Header(k: string): string { Ones(|k|) + "0" + k }

  const TOY_SUITE := Suite(
    (k: string, n: nat, p: string) => Header(k) + p,
    (k: string, t: string) => if Header(k) <= t then Some(t[|Header(k)|..]) else None,
    (k: string) => "f" + Coded(k))

  function Coded(k: string): string { if k == "" then "" else Ones(k[0] as nat) + "0" + Coded(k[1..]) }

  lemma {:induction false} CodedTellsApart(k: string, l: string)
    requires Coded(k) == Coded(l)
    ensures k == l
  {
    if k != "" && l != "" {
      OnesSplit(k[0] as nat, l[0] as nat, Coded(k[1..]), Coded(l[1..]));
      CodedTellsApart(k[1..], l[1..]);
      assert k == [k[0]] + k[1..] && l == [l[0]] + l[1..];
    }
  }

  lemma {:induction false} NoColonInOnes(n: nat)
    ensures ':' !in Ones(n)
  {
    if n > 0 { NoColonInOnes(n - 1); }
  }

  lemma {:induction false} NoColonInCode(k: string)
    ensures ':' !in Coded(k)
  {
    if k != "" {
      NoColonInOnes(k[0] as nat);
      NoColonInCode(k[1..]);
    }
  }

  lemma {:induction false} OnesSplit(a: nat, b: nat, x: string, y: string)
    requires Ones(a) + "0" + x == Ones(b) + "0" + y
    ensures a == b && x == y
  {
    if a == 0 || b == 0 {
      assert (Ones(a) + "0" + x)[0] == (Ones(b) + "0" + y)[0];
      assert a == 0 && b == 0;
      assert x == ("0" + x)[1..] && y == ("0" + y)[1..];
      assert Ones(0) + "0" + x == "0" + x && Ones(0) + "0" + y == "0" + y;
    } else {
      assert (Ones(a) + "0" + x)[1..] == Ones(a - 1) + "0" + x;
      assert (Ones(b) + "0" + y)[1..] == Ones(b - 1) + "0" + y;
      OnesSplit(a - 1, b - 1, x, y);
    }
  }

  lemma ToyOpens(k: string, n: nat, p: string)
    ensures TOY_SUITE.unseal(k, TOY_SUITE.seal(k, n, p)) == Some(p)
  {
    assert (Header(k) + p)[|Header(k)|..] == p;
  }

  lemma ToyOpensUnderOneKey(k: string, l: string, t: string)
    requires TOY_SUITE.unseal(k, t).Some? && TOY_SUITE.unseal(l, t).Some?
    ensures k == l
  {
    hide Ones;
    var x, y := t[|Header(k)|..], t[|Header(l)|..];
    assert t == Header(k) + x == Ones(|k|) + "0" + (k + x);
    assert t == Header(l) + y == Ones(|l|) + "0" + (l + y);
    OnesSplit(|k|, |l|, k + x, l + y);
    assert k == (k + x)[..|k|] && l == (l + y)[..|l|];
  }

  lemma ToyPrintsApart(k: string, l: string)
    requires TOY_SUITE.fingerprint(k) == TOY_SUITE.fingerprint(l)
    ensures k == l
  {
    assert ("f" + Coded(k))[1..] == Coded(k) && ("f" + Coded(l))[1..] == Coded(l);
    CodedTellsApart(k, l);
  }

  lemma ToyPrint(k: string)
    ensures var p := TOY_SUITE.fingerprint(k); p != "" && p != "None" && ':' !in p
  {
    NoColonInCode(k);
    assert TOY_SUITE.fingerprint(k)[0] == 'f';
  }

  lemma IdealIsPossible()
    ensures Ideal(TOY_SUITE) && NoCollisions(TOY_SUITE)
  {
    hide Header, Coded;
    var f := TOY_SUITE;
    forall k, n, p ensures f.unseal(k, f.seal(k, n, p)) == Some(p) { ToyOpens(k, n, p); }
    forall k, l, t | f.unseal(k, t).Some? && f.unseal(l, t).Some? ensures k == l { ToyOpensUnderOneKey(k, l, t); }
    forall k, l | f.fingerprint(k) == f.fingerprint(l) ensures k == l { ToyPrintsApart(k, l); }
    forall k ensures f.fingerprint(k) != "" && f.fingerprint(k) != "None" && ':' !in f.fingerprint(k) { ToyPrint(k); }
  }

  // Two rings without a common key.
  const TOY_OLD: Cipher := Cipher(TOY_SUITE, "a", [], true)
  const TOY_NEW: Cipher := Cipher(TOY_SUITE, "b", [], true)

  lemma ToyRings()
    ensures Ideal(TOY_SUITE) && NoCollisions(TOY_SUITE)
    ensures Keys(TOY_OLD) == ["a"] && Keys(TOY_NEW) == ["b"]
  {
    IdealIsPossible();
    assert (["a"] + [])[1..] == [] && (["b"] + [])[1..] == [];
    assert NonEmpty([]) == [];
  }
}
