/** Adding one recording to a manifest: the idempotency probe and the splice that rewrites only the
    timestamp and inserts the entry before the closing bracket (device_manifest_upsert_file). */
module ManifestUpsert {
  import opened Wrappers
  import opened Bytes
  import opened ManifestText
  import opened TextFormat
  import opened ManifestFormat
  import opened ManifestCodec
  import opened Joining
  import opened ManifestEntries
  import opened ManifestSnapshot
  import opened ManifestReader
  import opened ManifestHeader
  import opened ManifestExtends
  import Calendar

  const MAX_BYTES: nat := 131072
  const ENTRY_MAX: nat := 1024
  const CEILING: nat := 32768

  /** What to do with the manifest: leave it, answering error, OK or conflict, or replace it. */
  datatype Plan = Refuse | Already | Conflict | Write(doc: string)

  // ----- What the source promises -----

  /** The stored entry describes the same recording: start times may differ by two seconds. */
  predicate SameRecording(stored: Entry, e: Entry)
    requires EntryOk(stored) && EntryOk(e)
  {
    && stored.sha256 == e.sha256 && stored.filename == e.filename
    && stored.sizeBytes == e.sizeBytes && stored.durationMs == e.durationMs
    && -2 <= Calendar.UtcSeconds(stored.startedAt) - Calendar.UtcSeconds(e.startedAt) <= 2
  }

  predicate Added(s: Snapshot, u: string, e: Entry, t: Snapshot) {
    t == Snapshot(s.deviceId, u, s.entries + [e])
  }

  predicate HasId(es: seq<Entry>, id: string) {
    exists i :: 0 <= i < |es| && es[i].id == id
  }

  /** The plan is right for a manifest that says `s`. */
  predicate PlanFits(s: Snapshot, u: string, e: Entry, plan: Plan)
    requires SnapshotOk(s) && Calendar.ValidStamp(u) && EntryOk(e)
  {
    if HasId(s.entries, e.id) then
      exists i :: 0 <= i < |s.entries| && s.entries[i].id == e.id && plan == (if SameRecording(s.entries[i], e) then Already else Conflict)
    else
      SnapshotOk(Snapshot(s.deviceId, u, s.entries + [e])) &&
      var doc := Print(Snapshot(s.deviceId, u, s.entries + [e]));
      plan == (if |doc| > CEILING then Refuse else Write(doc))
  }

  // ----- The header as one text -----

  function BeforeStampText(id: string): string {
    "{\"schemaVersion\":1,\"deviceId\":\"" + id + "\",\"updatedAt\":\""
  }

  const AFTER_STAMP := "\",\"recordings\":["

  lemma ShowStr(text: string, rest: Format, v: string, vals: Values)
    requires Safe(v) && Fits(rest, vals)
    ensures Fits(StrField(text, rest), Text(v, vals))
    ensures Show(StrField(text, rest), Text(v, vals)) == text + Quoted(v) + Show(rest, vals)
  {
  }

  lemma ShowNum(text: string, rest: Format, n: nat, vals: Values)
    requires n < UINT32 && Fits(rest, vals)
    ensures Fits(NumField(text, rest), Number(n, vals))
    ensures Show(NumField(text, rest), Number(n, vals)) == text + Dec(n) + Show(rest, vals)
  {
  }

  lemma JoinHeader(id: string, u: string)
    ensures "{\"schemaVersion\":" + "1" + (",\"deviceId\":" + Quoted(id) + (",\"updatedAt\":" + Quoted(u) + ("," + RECORDINGS)))
         == BeforeStampText(id) + u + AFTER_STAMP
  {
    var q := "\"";
    Regroup("{\"schemaVersion\":" + "1", ",\"deviceId\":", q, id, ",\"updatedAt\":", u, "," + RECORDINGS);
    assert "{\"schemaVersion\":" + "1" + ",\"deviceId\":" + q == "{\"schemaVersion\":1,\"deviceId\":\"";
    assert q + ",\"updatedAt\":" + q == "\",\"updatedAt\":\"";
    assert q + ("," + RECORDINGS) == AFTER_STAMP;
  }

  lemma Regroup(a: string, b: string, q: string, x: string, c: string, y: string, d: string)
    ensures a + (b + (q + x + q) + (c + (q + y + q) + d)) == (a + b + q) + x + (q + c + q) + y + (q + d)
  {
  }

  lemma HeaderWritten(id: string, u: string)
    requires Safe(id) && Calendar.ValidStamp(u)
    ensures HeaderText(id, u) == BeforeStampText(id) + u + AFTER_STAMP
  {
    StampSafe(u);
    var tail := Lit(RECORDINGS, End);
    JoinHeader(id, u);
    assert Show(tail, Nil) == RECORDINGS;
    assert Show(Lit(",", tail), Nil) == "," + RECORDINGS;
    ShowStr(",\"updatedAt\":", Lit(",", tail), u, Nil);
    ShowStr(",\"deviceId\":", HEADER.rest.rest.rest.rest, id, Text(u, Nil));
    assert Dec(1) == "1";
    ShowNum("{\"schemaVersion\":", HEADER.rest.rest, SCHEMA_VERSION, Text(id, Text(u, Nil)));
  }

  /** A canonical document, cut where the splice cuts it. */
  lemma Cuts(doc: string, id: string, s: Snapshot)
    requires Canonical(doc, id, s)
    ensures doc == BeforeStampText(id) + s.updatedAt + (AFTER_STAMP + Array(s.entries)) + "]}"
  {
    HeaderWritten(id, s.updatedAt);
  }

  // ----- The splice -----

  predicate IsBlank(c: char) {
    c == ' ' || c == '\t' || c == '\n' || c == '\r'
  }

  method TrimEnd(doc: string) returns (e: nat)
    ensures e <= |doc| && (e > 0 ==> !IsBlank(doc[e - 1])) && forall k :: e <= k < |doc| ==> IsBlank(doc[k])
  {
    e := |doc|;
    while e > 0 && IsBlank(doc[e - 1])
      invariant e <= |doc| && forall k :: e <= k < |doc| ==> IsBlank(doc[k])
    {
      e := e - 1;
    }
  }

  method SkipBlank(doc: string, from: nat, to: nat) returns (at: nat)
    requires from <= to <= |doc|
    ensures from <= at <= to && (at < to ==> !IsBlank(doc[at])) && forall k :: from <= k < at ==> IsBlank(doc[k])
  {
    at := from;
    while at < to && IsBlank(doc[at])
      invariant from <= at <= to && forall k :: from <= k < at ==> IsBlank(doc[k])
    {
      at := at + 1;
    }
  }

  /** Where the timestamp's text lies: after the first updatedAt key's colon, between the quotes. */
  method StampBounds(doc: string, id: string, ghost s: Snapshot) returns (q0: nat, q1: nat)
    requires Canonical(doc, id, s) && ValidUuid(id)
    ensures q0 == |BeforeStampText(id)| && q1 == q0 + |s.updatedAt|
  {
    hide Canonical, HeaderIs;
    ArraySlice(doc, id, s);
    var key := Find(doc, 0, "\"updatedAt\"");
    FirstStampKey(doc, id, s.updatedAt);
    assert key.value == StampKey(|id|);
    StampChars(doc, id, s.updatedAt);
    q0 := FindChar(doc, key.value, ':');
    q0 := FindChar(doc, q0, '"');
    q0 := q0 + 1;
    q1 := FindChar(doc, q0, '"');
  }

  lemma FirstStampKey(doc: string, id: string, u: string)
    requires HeaderIs(doc, id, u, ArrayAt(|id|)) && id != "updatedAt"
    ensures StartsAt(doc, StampKey(|id|), "\"updatedAt\"")
    ensures forall i: nat :: i < StampKey(|id|) ==> !StartsAt(doc, i, "\"updatedAt\"")
  {
    hide HeaderIs;
    BeforeStamp(doc, id, u, ArrayAt(|id|));
    assert "\"updatedAt\"" + ":" == "\"updatedAt\":" && Quoted("updatedAt") == "\"updatedAt\"";
    StartsAtConcat(doc, StampKey(|id|), "\"updatedAt\"", ":");
    forall i: nat | i < StampKey(|id|) ensures !StartsAt(doc, i, "\"updatedAt\"") {
      NoEarlierStampKey(doc, id, u, ArrayAt(|id|), i);
    }
  }

  predicate StampSpelled(doc: string, k: nat, n: nat) {
    && k + 13 + n < |doc| && (forall i :: k <= i < k + 11 ==> doc[i] != ':') && doc[k + 11] == ':'
    && doc[k + 12] == '"' && (forall i :: k + 13 <= i < k + 13 + n ==> doc[i] != '"') && doc[k + 13 + n] == '"'
  }

  /** From the key on: no colon before offset 11, the opening quote, the stamp, the closing quote. */
  lemma StampChars(doc: string, id: string, u: string)
    requires HeaderIs(doc, id, u, ArrayAt(|id|))
    ensures StampSpelled(doc, StampKey(|id|), |u|)
  {
    var k := StampKey(|id|);
    BeforeStamp(doc, id, u, ArrayAt(|id|));
    HeaderParts(doc, id, u, ArrayAt(|id|));
    var lit := "\"updatedAt\":";
    forall i | k <= i < k + 12 ensures doc[i] == lit[i - k] {
      StartsAtIndex(doc, k, lit, i - k);
    }
    QuotedChars(doc, k + 12, u);
  }

  method ArrayOpen(doc: string, id: string, ghost s: Snapshot) returns (a: nat)
    requires Canonical(doc, id, s) && ValidUuid(id)
    ensures a + 1 == |BeforeStampText(id)| + |s.updatedAt| + |AFTER_STAMP|
  {
    hide Canonical, HeaderIs;
    ArraySlice(doc, id, s);
    var key := Find(doc, 0, "\"recordings\"");
    FirstArrayName(doc, id, s.updatedAt);
    assert key.value == ArrayKey(|id|);
    BracketAt(doc, key.value);
    a := FindChar(doc, key.value, '[');
    StampLength(doc, id, s);
  }

  lemma StampLength(doc: string, id: string, s: Snapshot)
    requires Canonical(doc, id, s)
    ensures |s.updatedAt| == 25
  {
  }

  lemma FirstArrayName(doc: string, id: string, u: string)
    requires HeaderIs(doc, id, u, ArrayAt(|id|)) && |id| == 36
    ensures StartsAt(doc, ArrayKey(|id|), "\"recordings\"") && StartsAt(doc, ArrayKey(|id|), RECORDINGS)
    ensures forall i: nat :: i < ArrayKey(|id|) ==> !StartsAt(doc, i, "\"recordings\"")
  {
    var name := "\"recordings\"";
    HeaderParts(doc, id, u, ArrayAt(|id|));
    assert name + ":[" == RECORDINGS && Quoted("recordings") == name;
    StartsAtConcat(doc, ArrayKey(|id|), name, ":[");
    forall i: nat | i < ArrayKey(|id|) ensures !StartsAt(doc, i, name) {
      NoEarlierArrayKey(doc, id, u, ArrayAt(|id|), i, "recordings", false);
    }
  }

  /** The manifest of `es` with the timestamp `u` and the text `entry` before the closing bracket. */
  function Spliced(id: string, u: string, es: seq<Entry>, entry: string): string
    requires AllOk(es)
  {
    BeforeStampText(id) + u + (AFTER_STAMP + Array(es)) + (Comma(|es|) + entry) + "]}"
  }

  /** Replace the timestamp and insert `entry` before the closing bracket. */
  method Splice(doc: string, id: string, u: string, entry: string, ghost s: Snapshot) returns (text: string)
    requires Canonical(doc, id, s) && ValidUuid(id)
    ensures AllOk(s.entries) && text == Spliced(id, u, s.entries, entry)
  {
    hide Canonical;
    Cuts(doc, id, s);
    CanonicalOk(doc, id, s);
    var q0, q1 := StampBounds(doc, id, s);
    var open := ArrayOpen(doc, id, s);
    ghost var head, kept := BeforeStampText(id) + s.updatedAt, AFTER_STAMP + Array(s.entries);
    assert |head + kept + "]}"| == |head| + |kept| + 2;
    assert doc[|doc| - 1] == '}' && doc[|doc| - 2] == ']';
    var docEnd := TrimEnd(doc);
    var close := docEnd - 2;
    var c := SkipBlank(doc, open + 1, close);
    ArrayBrace(doc, open + 1, s.entries);
    var comma := if c == close then "" else ",";
    text := doc[..q0] + u + doc[q1..close] + (comma + entry) + doc[close..];
    assert doc[..q0] == BeforeStampText(id);
    assert doc[q1..close] == kept;
    assert doc[close..] == "]}";
  }

  /** The array is empty when it has no entries, and otherwise starts with a brace. */
  lemma ArrayBrace(doc: string, p: nat, es: seq<Entry>)
    requires AllOk(es) && StartsAt(doc, p, Array(es))
    ensures if es == [] then Array(es) == "" else p < |doc| && doc[p] == '{'
  {
    if es != [] {
      Stands(doc, p, es, |es|, 0);
      Brace(doc, p, es[0], Stop(p, es, 1));
    }
  }

  // ----- The probe -----

  /** The needle is not found in the header. */
  lemma NeedleNotInHeader(doc: string, id: string, s: Snapshot, h: nat, key: string)
    requires Canonical(doc, id, s) && h < ArrayAt(|id|)
    ensures !StartsAt(doc, h, Needle(key))
  {
    hide EntryOk, EntryText, Canonical, HeaderIs;
    ArraySlice(doc, id, s);
    NeedleKey(doc, h, key);
    IdKeyName();
    if h < ArrayKey(|id|) {
      NoEarlierArrayKey(doc, id, s.updatedAt, ArrayAt(|id|), h, ID_KEY, true);
    } else {
      NotInArrayKey(doc, ArrayKey(|id|), h);
    }
  }

  lemma NotInArrayKey(doc: string, p: nat, h: nat)
    requires StartsAt(doc, p, RECORDINGS) && p <= h < p + 14
    ensures !KeyAt(doc, h, ID_KEY, true)
  {
    StartsAtIndex(doc, p, RECORDINGS, h - p);
    if KeyAt(doc, h, ID_KEY, true) {
      StartsAtIndex(doc, h, Quoted(ID_KEY), 0);
      StartsAtIndex(doc, h, Quoted(ID_KEY), 1);
      StartsAtIndex(doc, h, Quoted(ID_KEY), 10);
      if h == p {
        StartsAtIndex(doc, p, RECORDINGS, 10);
      } else {
        StartsAtIndex(doc, p, RECORDINGS, 12);
      }
    }
  }

  /** A found needle is the key of the entry with that id. */
  lemma ProbeHits(doc: string, id: string, s: Snapshot, h: nat, key: string) returns (j: nat)
    requires Canonical(doc, id, s) && Safe(key) && StartsAt(doc, h, Needle(key))
    ensures j < |s.entries| && s.entries[j].id == key && 0 < h && AllOk(s.entries)
    ensures EntryIs(doc, h - 1, s.entries[j], Stop(ArrayAt(|id|), s.entries, j + 1))
  {
    hide EntryOk, EntryText, EntryIs, Canonical, HeaderIs, StartsAt, Texts;
    Located(doc, id, s);
    var p, es := ArrayAt(|id|), s.entries;
    if h < p {
      NeedleNotInHeader(doc, id, s, h, key);
    }
    NeedleFits(doc, h, key, Stop(p, es, |es|));
    j := NeedleInEntries(doc, p, es, |es|, h, key);
    Stands(doc, p, es, |es|, j);
  }

  lemma Located(doc: string, id: string, s: Snapshot)
    requires Canonical(doc, id, s)
    ensures AllOk(s.entries) && Listed(doc, ArrayAt(|id|), s.entries, |s.entries|)
    ensures |doc| == Stop(ArrayAt(|id|), s.entries, |s.entries|) + 2
  {
    hide EntryOk, EntryText;
    var h := |HeaderText(id, s.updatedAt)|;
    SnapshotIsCanonical(doc, id, s, h);
    HeaderParts(doc, id, s.updatedAt, h);
  }

  /** A needle that is not found means no entry has the id. */
  lemma ProbeMisses(doc: string, id: string, s: Snapshot, key: string)
    requires Canonical(doc, id, s) && forall h: nat :: h < |doc| ==> !StartsAt(doc, h, Needle(key))
    ensures !HasId(s.entries, key)
  {
    hide EntryOk, EntryText, EntryIs, Canonical, HeaderIs, StartsAt, Texts, Needle;
    Located(doc, id, s);
    var p, es := ArrayAt(|id|), s.entries;
    forall i | 0 <= i < |es| ensures es[i].id != key {
      Stands(doc, p, es, |es|, i);
      NeedleStands(doc, Place(p, es, i), es[i], Stop(p, es, i + 1));
      Brace(doc, Place(p, es, i), es[i], Stop(p, es, i + 1));
    }
  }

  // ----- The whole operation on the manifest's bytes -----

  lemma AddedPrints(id: string, u: string, es: seq<Entry>, e: Entry)
    requires ValidUuid(id) && Calendar.ValidStamp(u) && AllOk(es) && EntryOk(e) && DistinctIds(es) && !HasId(es, e.id)
    ensures SnapshotOk(Snapshot(id, u, es + [e]))
    ensures Print(Snapshot(id, u, es + [e])) == Spliced(id, u, es, EntryText(e))
  {
    hide EntryOk, EntryText;
    UuidSafe(id);
    TextsAppend(es, e);
    HeaderWritten(id, u);
    ArrayGrows(Texts(es), EntryText(e));
    assert Array(es + [e]) == Array(es) + (Comma(|es|) + EntryText(e));
  }

  lemma ArrayGrows(ts: seq<string>, t: string)
    ensures Joined(ts + [t], |ts| + 1) == Joined(ts, |ts|) + (Comma(|ts|) + t)
  {
    var all := ts + [t];
    SamePrefix(ts, all, |ts|);
    assert Joined(all, |ts| + 1) == Joined(all, |ts|) + (Comma(|ts|) + all[|ts|]);
  }

  // ----- Any text in the place of an entry -----

  /** The text says new entries, one or more, that may follow `es`. */
  predicate SaysEntries(text: string, es: seq<Entry>, fs: seq<Entry>) {
    fs != [] && AllOk(fs) && DistinctIds(es + fs) && text == Array(fs)
  }

  lemma {:induction false} ArrayOfBoth(es: seq<Entry>, fs: seq<Entry>)
    requires AllOk(es) && AllOk(fs) && fs != []
    ensures AllOk(es + fs) && Array(es + fs) == Array(es) + (Comma(|es|) + Array(fs))
    decreases |fs|
  {
    hide EntryOk, EntryText, Array;
    var front, e := fs[..|fs| - 1], fs[|fs| - 1];
    assert fs == front + [e];
    OneMore(front, e);
    if front == [] {
      assert es + fs == es + [e] && front + [e] == [e];
      OneMore(es, e);
    } else {
      ArrayOfBoth(es, front);
      assert es + fs == (es + front) + [e];
      OneMore(es + front, e);
      Associate(Array(es), Comma(|es|), Array(front), Comma(|front|) + EntryText(e));
    }
  }

  lemma Associate(a: string, b: string, c: string, d: string)
    ensures a + (b + c) + d == a + (b + (c + d))
  {
  }

  lemma OneMore(es: seq<Entry>, e: Entry)
    requires AllOk(es) && EntryOk(e)
    ensures AllOk(es + [e]) && Array(es + [e]) == Array(es) + (Comma(|es|) + EntryText(e))
    ensures es == [] ==> Array(es) == ""
  {
    hide EntryOk, EntryText;
    TextsAppend(es, e);
    ArrayGrows(Texts(es), EntryText(e));
  }

  /** New entries spliced in print the longer snapshot. */
  lemma SplicedPrints(id: string, u: string, es: seq<Entry>, fs: seq<Entry>)
    requires ValidUuid(id) && Calendar.ValidStamp(u) && AllOk(es) && fs != [] && AllOk(fs) && DistinctIds(es + fs)
    ensures Canonical(Spliced(id, u, es, Array(fs)), id, Snapshot(id, u, es + fs))
  {
    hide EntryOk, EntryText;
    UuidSafe(id);
    HeaderWritten(id, u);
    ArrayOfBoth(es, fs);
  }

  lemma SplicedArray(id: string, u: string, es: seq<Entry>, text: string, t: Snapshot)
    requires Calendar.ValidStamp(u) && AllOk(es) && Canonical(Spliced(id, u, es, text), id, t)
    ensures t.deviceId == id && t.updatedAt == u && AllOk(t.entries) && DistinctIds(t.entries)
    ensures Array(t.entries) == Array(es) + (Comma(|es|) + text)
  {
    hide EntryOk, EntryText, Array;
    var doc := Spliced(id, u, es, text);
    Cuts(doc, id, t);
    CanonicalOk(doc, id, t);
    StampLength(doc, id, t);
    SameArray(BeforeStampText(id), u, Array(es) + (Comma(|es|) + text), t.updatedAt, Array(t.entries), doc);
  }

  /** A canonical manifest that was spliced together holds the old entries and says the new ones in the text. */
  lemma SplicedSays(id: string, u: string, es: seq<Entry>, text: string, t: Snapshot) returns (fs: seq<Entry>)
    requires Calendar.ValidStamp(u) && AllOk(es) && text != "" && Canonical(Spliced(id, u, es, text), id, t)
    ensures SaysEntries(text, es, fs) && t == Snapshot(id, u, es + fs) && t.entries != es
  {
    hide EntryOk, EntryText, Canonical, Spliced, DistinctIds, Array;
    SplicedArray(id, u, es, text, t);
    PrefixIsEntryPrefix(es, t.entries);
    assert |Array(t.entries)| > |Array(es)|;
    fs := t.entries[|es|..];
    assert t.entries == es + fs;
    assert fs == [] ==> es + fs == es;
    RestOfArray(es, fs, text);
  }

  lemma RestOfArray(es: seq<Entry>, fs: seq<Entry>, text: string)
    requires AllOk(es) && fs != [] && AllOk(es + fs) && Array(es + fs) == Array(es) + (Comma(|es|) + text)
    ensures AllOk(fs) && text == Array(fs)
  {
    hide Array, EntryOk;
    forall i | 0 <= i < |fs| ensures EntryOk(fs[i]) {
      assert (es + fs)[|es| + i] == fs[i];
    }
    ArrayOfBoth(es, fs);
    var a := Array(es) + Comma(|es|);
    assert a + text == Array(es) + (Comma(|es|) + text) == a + Array(fs);
    assert (a + text)[|a|..] == text && (a + Array(fs))[|a|..] == Array(fs);
  }

  lemma SameArray(head: string, u: string, a: string, v: string, b: string, doc: string)
    requires |u| == |v| && doc == head + v + (AFTER_STAMP + b) + "]}"
    requires doc == head + u + (AFTER_STAMP + a) + "]}"
    ensures u == v && a == b
  {
    var k := |head| + |u| + |AFTER_STAMP|;
    assert doc[|head|..|head| + |u|] == u && doc[|head|..|head| + |v|] == v;
    assert |doc| == k + |a| + 2 == k + |b| + 2;
    assert doc[k..k + |a|] == a && doc[k..k + |b|] == b;
  }

  /** Whatever text is spliced in: the result is a canonical manifest exactly when the text says new
      entries, and then it is the manifest with those entries added. */
  lemma SplicedExactly(id: string, u: string, es: seq<Entry>, text: string)
    requires ValidUuid(id) && Calendar.ValidStamp(u) && AllOk(es) && text != ""
    ensures (exists t :: Canonical(Spliced(id, u, es, text), id, t)) <==> (exists fs :: SaysEntries(text, es, fs))
    ensures forall fs :: SaysEntries(text, es, fs) ==> Canonical(Spliced(id, u, es, text), id, Snapshot(id, u, es + fs))
  {
    hide Canonical, Spliced, EntryOk, EntryText;
    if t :| Canonical(Spliced(id, u, es, text), id, t) {
      var fs := SplicedSays(id, u, es, text, t);
    }
    forall fs | SaysEntries(text, es, fs) ensures Canonical(Spliced(id, u, es, text), id, Snapshot(id, u, es + fs)) {
      SplicedPrints(id, u, es, fs);
    }
  }

  lemma EntryIdSafe(e: Entry)
    requires EntryOk(e)
    ensures Safe(e.id)
  {
    UuidSafe(e.id);
  }

  /** Decide what to do with a present manifest. */
  method PlanAppend(doc: string, id: string, u: string, e: Entry) returns (plan: Plan, ghost s: Snapshot)
    requires ValidUuid(id) && Calendar.ValidStamp(u) && EntryOk(e)
    ensures (exists t :: Canonical(doc, id, t)) ==> Canonical(doc, id, s) && PlanFits(s, u, e, plan)
    ensures (forall t :: !Canonical(doc, id, t)) ==> plan == Refuse
  {
    hide Canonical, EntryOk, EntryText, EntryIs, Print;
    var ok;
    ok, s := SnapshotValid(doc, id);
    if !ok {
      return Refuse, s;
    }
    CanonicalOk(doc, id, s);
    EntryIdSafe(e);
    var at := Find(doc, 0, Needle(e.id));
    if at.Some? {
      ghost var j := ProbeHits(doc, id, s, at.value, e.id);
      var found, stored, q := ReadEntry(doc, at.value - 1);
      EntryUnique(doc, at.value - 1, stored, q, s.entries[j], Stop(ArrayAt(|id|), s.entries, j + 1));
      plan := if SameRecording(stored, e) then Already else Conflict;
    } else {
      ProbeMisses(doc, id, s, e.id);
      AddedPrints(id, u, s.entries, e);
      var text := Splice(doc, id, u, EntryText(e), s);
      plan := if |text| > CEILING then Refuse else Write(text);
    }
  }
}
