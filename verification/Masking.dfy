/** Masking of secret-looking values in a provider's config, and the patch merge
    that takes a masked value as "unchanged". */
module Masking {
  import opened Texts

  // A JSON value: null, text, or anything else.
  datatype Json = Null | Str(s: string) | Other(code: int)

  // A provider's config.  The key "_enc" is reserved for sealed text.
  const ENC: string := "_enc"
  type Config = c: map<string, Json> | ENC in c ==> !c[ENC].Other?

  const MASK: string := "\U{2022}\U{2022}\U{2022}\U{2022}\U{2022}\U{2022}\U{2022}\U{2022}"
  const HINTS: seq<string> := ["secret", "key", "token", "password", "pwd", "credential", "passwd"]

  predicate IsSecretKey(name: string) {
    exists i :: 0 <= i < |HINTS| && Contains(Lower(name), HINTS[i])
  }

  // A name is secret-looking if one of seven words is in it, in whatever case.
  lemma SecretNames(name: string)
    ensures IsSecretKey(name) <==>
              exists word: string, a: string, b: string ::
                word in {"secret", "key", "token", "password", "pwd", "credential", "passwd"} && Lower(name) == a + word + b
  {
    if IsSecretKey(name) {
      var i :| 0 <= i < |HINTS| && Contains(Lower(name), HINTS[i]);
      ContainsIff(Lower(name), HINTS[i]);
      var a: string, b: string :| Lower(name) == a + HINTS[i] + b;
      assert HINTS[i] in {"secret", "key", "token", "password", "pwd", "credential", "passwd"};
    }
    if exists word: string, a: string, b: string ::
         word in {"secret", "key", "token", "password", "pwd", "credential", "passwd"} && Lower(name) == a + word + b
    {
      var word: string, a: string, b: string :|
        word in {"secret", "key", "token", "password", "pwd", "credential", "passwd"} && Lower(name) == a + word + b;
      ContainsIff(Lower(name), word);
      HintAt(word);
    }
  }

  lemma HintAt(word: string)
    requires word in {"secret", "key", "token", "password", "pwd", "credential", "passwd"}
    ensures exists i :: 0 <= i < |HINTS| && HINTS[i] == word
  {
    assert HINTS[0] == "secret" && HINTS[1] == "key" && HINTS[2] == "token" && HINTS[3] == "password";
    assert HINTS[4] == "pwd" && HINTS[5] == "credential" && HINTS[6] == "passwd";
  }

  predicate Hidden(k: string, v: Json) { IsSecretKey(k) && v.Str? && v.s != "" }

  function MaskConfig(c: Config): Config {
    map k | k in c :: if Hidden(k, c[k]) then Str(MASK) else c[k]
  }

  // A null removes, a mask keeps, anything else overwrites or adds.
  predicate Overwrites(incoming: Config, k: string) { k in incoming && incoming[k] != Str(MASK) }

  function Merge(incoming: Config, existing: Config): Config {
    map k | k in incoming.Keys + existing.Keys
            && if Overwrites(incoming, k) then !incoming[k].Null? else k in existing
          :: if Overwrites(incoming, k) then incoming[k] else existing[k]
  }

  // One patch for two: the later one decides unless it masks what the earlier set.
  function Combine(first: Config, second: Config): Config {
    map k | k in first.Keys + second.Keys
          :: if k in second && (Overwrites(second, k) || k !in first) then second[k] else first[k]
  }

  // What a patch makes of each key: a value other than null and the mask is what the
  // key holds afterwards, null takes the key away, and a mask, or nothing said, leaves it.
  lemma MergeByCases(p: Config, e: Config, k: string)
    ensures var m := Merge(p, e);
            if k in p && !p[k].Null? && p[k] != Str(MASK) then k in m && m[k] == p[k]
            else if k in p && p[k].Null? then k !in m
            else (k in m <==> k in e) && (k in e ==> m[k] == e[k])
  {}

  predicate NoNulls(c: Config) { forall k <- c :: !c[k].Null? }

  // Sending the masked view back changes nothing, exactly for configs without nulls.
  lemma MaskedViewMergesBack(c: Config)
    ensures Merge(MaskConfig(c), c) == c <==> NoNulls(c)
  {
    var m := Merge(MaskConfig(c), c);
    if !NoNulls(c) {
      var k :| k in c && c[k].Null?;
      assert k !in m;
    } else {
      forall k | k in c ensures k in m && m[k] == c[k] {}
    }
  }

  lemma PatchIsIdempotent(p: Config, e: Config)
    ensures Merge(p, Merge(p, e)) == Merge(p, e)
  {
    var once, twice := Merge(p, e), Merge(p, Merge(p, e));
    forall k ensures k in once <==> k in twice {}
  }

  lemma PatchesCombine(p: Config, q: Config, e: Config)
    ensures Merge(q, Merge(p, e)) == Merge(Combine(p, q), e)
  {
    var two, one := Merge(q, Merge(p, e)), Merge(Combine(p, q), e);
    forall k ensures k in two <==> k in one {
      assert k in Combine(p, q) <==> k in p || k in q;
    }
  }

  // The masked view tells nothing about a secret but that it is set: configs that
  // differ only in hidden values have the same view.
  lemma MaskHides(c: Config, d: Config)
    requires c.Keys == d.Keys
    requires forall k <- c :: c[k] == d[k] || (Hidden(k, c[k]) && Hidden(k, d[k]))
    ensures MaskConfig(c) == MaskConfig(d)
  {}

  // ---------------- the loops ----------------

  method MaskConfigLoop(config: Config) returns (out: Config)
    ensures out == MaskConfig(config) && out.Keys == config.Keys
    ensures forall k <- config ::
              if IsSecretKey(k) && config[k].Str? && config[k].s != "" then out[k].Str? && out[k].s == MASK
              else out[k] == config[k]
  {
    out := map[];
    var todo := config.Keys;
    while todo != {}
      invariant todo <= config.Keys
      invariant out == map k | k in config.Keys - todo :: MaskConfig(config)[k]
      decreases todo
    {
      var k :| k in todo;
      var v := config[k];
      if IsSecretKey(k) && v.Str? && v.s != "" {
        out := out[k := Str(MASK)];
      } else {
        out := out[k := v];
      }
      todo := todo - {k};
    }
  }

  method MergeWithExisting(incoming: Config, existing: Config) returns (result: Config)
    ensures result == Merge(incoming, existing)
    ensures forall k <- incoming :: !incoming[k].Null? && incoming[k] != Str(MASK) ==> k in result && result[k] == incoming[k]
    ensures forall k <- incoming :: incoming[k].Null? ==> k !in result
    ensures forall k :: (k in incoming ==> incoming[k] == Str(MASK)) ==>
              (k in result <==> k in existing) && (k in existing ==> result[k] == existing[k])
  {
    result := existing;
    var todo := incoming.Keys;
    while todo != {}
      invariant todo <= incoming.Keys
      invariant forall k <- todo :: (k in result <==> k in existing) && (k in result ==> result[k] == existing[k])
      invariant forall k :: k !in todo ==>
                  (k in result <==> k in Merge(incoming, existing))
                  && (k in result ==> result[k] == Merge(incoming, existing)[k])
      decreases todo
    {
      var k :| k in todo;
      var v := incoming[k];
      if v.Null? {
        result := result - {k};
      } else if v != Str(MASK) {
        result := result[k := v];
      }
      todo := todo - {k};
    }
  }
}
