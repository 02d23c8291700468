/** Where the searches for the header's keys land in a canonical document. */
module ManifestHeader {
  import opened ManifestText
  import opened TextFormat
  import opened ManifestFormat
  import opened ManifestCodec
  import opened Joining
  import opened ManifestEntries
  import opened ManifestSnapshot
  import Calendar

  lemma StrPrinted(text: string, rest: Format, v: string, vals: Values, doc: string, p: nat, q: nat)
    ensures Printed(doc, p, StrField(text, rest), Text(v, vals), q)
        <==> StartsAt(doc, p, text) && StringIs(doc, p + |text|, v) && Printed(doc, p + |text| + |v| + 2, rest, vals, q)
  {
    assert Printed(doc, p + |text|, Str(rest), Text(v, vals), q)
        <==> StringIs(doc, p + |text|, v) && Printed(doc, p + |text| + |v| + 2, rest, vals, q);
  }

  lemma NumPrinted(text: string, rest: Format, n: nat, vals: Values, doc: string, p: nat, q: nat)
    ensures Printed(doc, p, NumField(text, rest), Number(n, vals), q)
        <==> StartsAt(doc, p, text) && NumberIs(doc, p + |text|, n) && Printed(doc, p + |text| + |Dec(n)|, rest, vals, q)
  {
    assert Printed(doc, p + |text|, Num(rest), Number(n, vals), q)
        <==> NumberIs(doc, p + |text|, n) && Printed(doc, p + |text| + |Dec(n)|, rest, vals, q);
  }

  const COMMA := Lit(",", End)

  /** The header before `"updatedAt"`, and before `"recordings":[`. */
  const BEFORE_STAMP := NumField("{\"schemaVersion\":", StrField(",\"deviceId\":", COMMA))
  const BEFORE_ARRAY := NumField("{\"schemaVersion\":", StrField(",\"deviceId\":", StrField(",\"updatedAt\":", COMMA)))

  /** Where the header's fields stand when the device id has `n` characters. */
  function StampKey(n: nat): nat { n + 33 }
  function StampAt(n: nat): nat { n + 45 }
  function ArrayKey(n: nat): nat { n + 73 }
  function ArrayAt(n: nat): nat { n + 87 }

  lemma HeaderParts(doc: string, id: string, u: string, q: nat)
    requires HeaderIs(doc, id, u, q)
    ensures q == ArrayAt(|id|) && StartsAt(doc, 0, "{\"schemaVersion\":") && NumberIs(doc, 17, 1)
    ensures StartsAt(doc, 18, ",\"deviceId\":") && StringIs(doc, 30, id)
    ensures StartsAt(doc, |id| + 32, ",\"updatedAt\":") && StringIs(doc, StampAt(|id|), u) && StartsAt(doc, |id| + 72, ",")
    ensures StartsAt(doc, ArrayKey(|id|), RECORDINGS)
  {
    assert Dec(1) == "1";
    var n := |id|;
    NumPrinted("{\"schemaVersion\":", HEADER.rest.rest, SCHEMA_VERSION, Text(id, Text(u, Nil)), doc, 0, q);
    StrPrinted(",\"deviceId\":", HEADER.rest.rest.rest.rest, id, Text(u, Nil), doc, 18, q);
    StrPrinted(",\"updatedAt\":", Lit(",", Lit(RECORDINGS, End)), u, Nil, doc, n + 32, q);
    assert Printed(doc, n + 73, Lit(RECORDINGS, End), Nil, q);
  }

  lemma BeforeStamp(doc: string, id: string, u: string, q: nat)
    requires HeaderIs(doc, id, u, q)
    ensures Printed(doc, 0, BEFORE_STAMP, Number(1, Text(id, Nil)), StampKey(|id|)) && StartsAt(doc, StampKey(|id|), "\"updatedAt\":")
  {
    HeaderParts(doc, id, u, q);
    StartsAtConcat(doc, |id| + 32, ",", "\"updatedAt\":");
    assert "," + "\"updatedAt\":" == ",\"updatedAt\":";
    assert Printed(doc, |id| + 32, COMMA, Nil, |id| + 33);
    StrPrinted(",\"deviceId\":", COMMA, id, Nil, doc, 18, |id| + 33);
    assert Dec(1) == "1";
    NumPrinted("{\"schemaVersion\":", StrField(",\"deviceId\":", COMMA), 1, Text(id, Nil), doc, 0, |id| + 33);
  }

  lemma BeforeArray(doc: string, id: string, u: string, q: nat)
    requires HeaderIs(doc, id, u, q)
    ensures Printed(doc, 0, BEFORE_ARRAY, HeaderValues(id, u), ArrayKey(|id|)) && StartsAt(doc, ArrayKey(|id|), RECORDINGS)
  {
    HeaderParts(doc, id, u, q);
    var n := |id|;
    assert Printed(doc, n + 72, COMMA, Nil, n + 73);
    StrPrinted(",\"updatedAt\":", COMMA, u, Nil, doc, n + 32, n + 73);
    StrPrinted(",\"deviceId\":", StrField(",\"updatedAt\":", COMMA), id, Text(u, Nil), doc, 18, n + 73);
    assert Dec(1) == "1";
    NumPrinted("{\"schemaVersion\":", BEFORE_ARRAY.rest.rest, 1, Text(id, Text(u, Nil)), doc, 0, n + 73);
  }

  lemma HeaderKeyless()
    ensures Keyless(BEFORE_STAMP, 'u') && Keyless(BEFORE_ARRAY, 'r')
  {
    assert Keyless(COMMA, 'u') && Keyless(COMMA, 'r');
    StrKeyless(",\"deviceId\":", COMMA, 'u');
    NumKeyless("{\"schemaVersion\":", StrField(",\"deviceId\":", COMMA), 'u');
    StrKeyless(",\"updatedAt\":", COMMA, 'r');
    StrKeyless(",\"deviceId\":", StrField(",\"updatedAt\":", COMMA), 'r');
    NumKeyless("{\"schemaVersion\":", BEFORE_ARRAY.rest.rest, 'r');
  }

  /** No key that starts with `r` stands before the array's own key. */
  lemma NoEarlierArrayKey(doc: string, id: string, u: string, q: nat, i: nat, name: string, colon: bool)
    requires HeaderIs(doc, id, u, q) && i < ArrayKey(|id|) && KeyName(name) && name[0] == 'r'
    requires colon || (id != name && u != name)
    ensures !KeyAt(doc, i, name, colon)
  {
    BeforeArray(doc, id, u, q);
    HeaderKeyless();
    if id != name && u != name {
      assert !HasText(Text(u, Nil), name);
      assert !HasText(Text(id, Text(u, Nil)), name);
    }
    NoKey(BEFORE_ARRAY, HeaderValues(id, u), doc, 0, ArrayKey(|id|), i, name, colon);
  }

  lemma NoEarlierStampKey(doc: string, id: string, u: string, q: nat, i: nat)
    requires HeaderIs(doc, id, u, q) && i < StampKey(|id|) && id != "updatedAt"
    ensures !KeyAt(doc, i, "updatedAt", false)
  {
    BeforeStamp(doc, id, u, q);
    HeaderKeyless();
    assert KeyName("updatedAt");
    assert !HasText(Text(id, Nil), "updatedAt");
    NoKey(BEFORE_STAMP, Number(1, Text(id, Nil)), doc, 0, StampKey(|id|), i, "updatedAt", false);
  }
}
