/** The text of a provider's config: how dumping and loading JSON relate, and that
    the assumption about them can be met. */
module ConfigTexts {
  import opened Options
  import opened Masking
  import opened TokenCiphers

  datatype Codec = Codec(dump: Config -> string, load: string -> Option<Config>)

  // Loading undoes dumping, and a JSON text is longer than any text inside it.
  ghost predicate Faithful(j: Codec) {
    && (forall c :: j.load(j.dump(c)) == Some(c) && j.dump(c) != "")
    && (forall t, k :: j.load(t).Some? && k in j.load(t).value && j.load(t).value[k].Str? ==> |j.load(t).value[k].s| < |t|)
  }

  // ---------------- a faithful codec ----------------

  // A text with its length in front.
  function Framed(s: string): string { Ones(|s|) + "0" + s }

  function Tag(v: Json): char {
    match v
    case Null => 'n'
    case Str(_) => 's'
    case Other(code) => if code >= 0 then 'p' else 'm'
  }

  function Payload(v: Json): string {
    match v
    case Null => ""
    case Str(s) => s
    case Other(code) => Ones(if code >= 0 then code else -code)
  }

  function JsonText(v: Json): string { [Tag(v)] + Framed(Payload(v)) }

  function Without(c: Config, k: string): (d: Config)
    requires k in c
    ensures |d| == |c| - 1
  {
    var d := c - {k};
    assert d.Keys == c.Keys - {k};
    d
  }

  function Entry(k: string, v: Json): string { "," + (Framed(k) + JsonText(v)) }

  ghost function Dump(c: Config): string
    decreases |c|
  {
    if c == map[] then "}"
    else
      var k :| k in c;
      Entry(k, c[k]) + Dump(Without(c, k))
  }

  ghost function Load(t: string): (c: Option<Config>)
    ensures c.Some? ==> Dump(c.value) == t
  {
    if exists c: Config :: Dump(c) == t then
      var c: Config :| Dump(c) == t;
      Some(c)
    else None
  }

  lemma FramedSplit(a: string, b: string, x: string, y: string)
    requires Framed(a) + x == Framed(b) + y
    ensures a == b && x == y
  {
    assert Framed(a) + x == Ones(|a|) + "0" + (a + x);
    assert Framed(b) + y == Ones(|b|) + "0" + (b + y);
    OnesSplit(|a|, |b|, a + x, b + y);
    assert a == (a + x)[..|a|] && b == (b + y)[..|b|];
    assert x == (a + x)[|a|..] && y == (b + y)[|b|..];
  }

  lemma {:induction false} OnesLength(n: nat)
    ensures |Ones(n)| == n
  {
    if n > 0 { OnesLength(n - 1); }
  }

  lemma SameJson(v: Json, w: Json)
    requires Tag(v) == Tag(w) && Payload(v) == Payload(w)
    ensures v == w
  {
    if v.Other? {
      OnesLength(if v.code >= 0 then v.code else -v.code);
      OnesLength(if w.code >= 0 then w.code else -w.code);
    }
  }

  lemma JsonSplit(v: Json, w: Json, x: string, y: string)
    requires JsonText(v) + x == JsonText(w) + y
    ensures v == w && x == y
  {
    hide Framed, Tag, Payload;
    assert JsonText(v) + x == [Tag(v)] + (Framed(Payload(v)) + x);
    assert JsonText(w) + y == [Tag(w)] + (Framed(Payload(w)) + y);
    assert (JsonText(v) + x)[0] == Tag(v) && (JsonText(w) + y)[0] == Tag(w);
    assert (JsonText(v) + x)[1..] == Framed(Payload(v)) + x && (JsonText(w) + y)[1..] == Framed(Payload(w)) + y;
    FramedSplit(Payload(v), Payload(w), x, y);
    SameJson(v, w);
  }

  lemma EntrySplit(k: string, l: string, v: Json, w: Json, x: string, y: string)
    requires Entry(k, v) + x == Entry(l, w) + y
    ensures k == l && v == w && x == y
  {
    hide Framed, JsonText;
    assert (Entry(k, v) + x)[1..] == Framed(k) + (JsonText(v) + x);
    assert (Entry(l, w) + y)[1..] == Framed(l) + (JsonText(w) + y);
    FramedSplit(k, l, JsonText(v) + x, JsonText(w) + y);
    JsonSplit(v, w, x, y);
  }

  // The entry that comes first.
  lemma FirstEntry(c: Config) returns (k: string)
    requires c != map[]
    ensures k in c && Dump(c) == Entry(k, c[k]) + Dump(Without(c, k)) && Dump(c) != "}"
    ensures c == Without(c, k)[k := c[k]]
  {
    hide Framed, JsonText;
    k :| k in c && Dump(c) == Entry(k, c[k]) + Dump(Without(c, k));
    assert Dump(c)[0] == ',';
  }

  lemma {:induction false} DumpTellsApart(c: Config, d: Config)
    requires Dump(c) == Dump(d)
    ensures c == d
    decreases |c|
  {
    hide Entry, Without, Dump;
    DumpOfNothing();
    if c != map[] && d != map[] {
      var k := FirstEntry(c);
      var l := FirstEntry(d);
      EntrySplit(k, l, c[k], d[l], Dump(Without(c, k)), Dump(Without(d, l)));
      DumpTellsApart(Without(c, k), Without(d, k));
    } else if c != map[] {
      var k := FirstEntry(c);
    } else if d != map[] {
      var k := FirstEntry(d);
    }
  }

  lemma DumpOfNothing()
    ensures Dump(map[]) == "}"
  {}

  lemma {:induction false} DumpIsLonger(c: Config, k: string)
    ensures Dump(c) != ""
    ensures k in c && c[k].Str? ==> |c[k].s| < |Dump(c)|
    decreases |c|
  {
    hide Dump;
    DumpOfNothing();
    if c != map[] {
      var l := FirstEntry(c);
      DumpIsLonger(Without(c, l), k);
    }
  }

  ghost const TOY_CODEC: Codec := Codec((c: Config) => Dump(c), (t: string) => Load(t))

  lemma FaithfulIsPossible()
    ensures Faithful(TOY_CODEC)
  {
    hide Dump;
    var j := TOY_CODEC;
    forall c: Config ensures j.load(j.dump(c)) == Some(c) && j.dump(c) != "" {
      DumpIsLonger(c, "");
      DumpTellsApart(c, Load(Dump(c)).value);
    }
    forall t, k | j.load(t).Some? && k in j.load(t).value && j.load(t).value[k].Str?
      ensures |j.load(t).value[k].s| < |t|
    {
      DumpIsLonger(j.load(t).value, k);
    }
  }
}
