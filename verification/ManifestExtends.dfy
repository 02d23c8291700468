/** A manifest may only be replaced by one that keeps every entry (manifest_file_extends). */
module ManifestExtends {
  import opened ManifestText
  import opened TextFormat
  import opened ManifestFormat
  import opened ManifestCodec
  import opened Joining
  import opened ManifestEntries
  import opened ManifestSnapshot
  import opened ManifestReader
  import opened ManifestHeader

  /** Entries delimit themselves: the shorter of two lists at one place is how the longer one starts. */
  lemma {:induction false} SelfDelimiting(doc: string, p: nat, es: seq<Entry>, fs: seq<Entry>, k: nat)
    requires Listed(doc, p, es, |es|) && Listed(doc, p, fs, |fs|) && Stop(p, es, |es|) <= Stop(p, fs, |fs|) && k <= |es|
    ensures k <= |fs| && es[..k] == fs[..k]
  {
    hide EntryOk, EntryText, EntryIs, Texts, Joined, StartsAt;
    if k > 0 {
      var i := k - 1;
      SelfDelimiting(doc, p, es, fs, i);
      SamePlaces(p, es[..i], es, i);
      SamePlaces(p, fs[..i], fs, i);
      Stands(doc, p, es, |es|, i);
      EntryIsLong(doc, Place(p, es, i), es[i], Stop(p, es, k));
      if i < |fs| {
        Stands(doc, p, fs, |fs|, i);
        EntryUnique(doc, Place(p, es, i), es[i], Stop(p, es, k), fs[i], Stop(p, fs, k));
        assert es[..k] == es[..i] + [es[i]] && fs[..k] == fs[..i] + [fs[i]];
      }
    }
  }

  lemma EntryIsLong(doc: string, p: nat, e: Entry, q: nat)
    requires EntryIs(doc, p, e, q)
    ensures p < q
  {
    Brace(doc, p, e, q);
  }

  /** The array's contents. */
  function Array(es: seq<Entry>): string
    requires AllOk(es)
  {
    Joined(Texts(es), |es|)
  }

  /** What the byte comparison asks: `small` starts `big` and stops where an entry stops. */
  predicate ArrayPrefix(small: string, big: string) {
    |small| <= |big| && big[..|small|] == small && (small == "" || |small| == |big| || big[|small|] == ',')
  }

  lemma ArrayStands(es: seq<Entry>)
    requires AllOk(es)
    ensures Listed(Array(es), 0, es, |es|) && Stop(0, es, |es|) == |Array(es)|
  {
    var t := Array(es);
    assert t[0..|t|] == t;
  }

  /** Comparing bytes compares entries. */
  lemma PrefixIsEntryPrefix(es: seq<Entry>, fs: seq<Entry>)
    requires AllOk(es) && AllOk(fs)
    ensures ArrayPrefix(Array(es), Array(fs)) <==> es <= fs
  {
    hide EntryOk, EntryText;
    var a, b := Array(es), Array(fs);
    ArrayStands(fs);
    if ArrayPrefix(a, b) {
      assert StartsAt(b, 0, a);
      SelfDelimiting(b, 0, es, fs, |es|);
    }
    if es <= fs {
      SamePlaces(0, es, fs, |es|);
      PrefixBytes(es, fs);
    }
  }

  lemma PrefixBytes(es: seq<Entry>, fs: seq<Entry>)
    requires AllOk(es) && AllOk(fs) && es <= fs
    ensures ArrayPrefix(Array(es), Array(fs))
  {
    hide EntryOk, EntryText;
    var a, b := Array(es), Array(fs);
    SamePrefix(Texts(es), Texts(fs), |es|);
    ArrayStands(fs);
    if |es| < |fs| {
      PartStands(b, 0, Texts(fs), |fs|, |es|);
      if a != "" {
        StartsAtIndex(b, |a|, ",", 0);
      }
    }
  }

  /** In a canonical document the array's contents stand between the key's bracket and the last two bytes. */
  lemma ArraySlice(doc: string, id: string, s: Snapshot)
    requires Canonical(doc, id, s)
    ensures ArrayAt(|id|) + 2 <= |doc| && doc[ArrayAt(|id|)..|doc| - 2] == Array(s.entries)
    ensures StartsAt(doc, ArrayKey(|id|), RECORDINGS) && HeaderIs(doc, id, s.updatedAt, ArrayAt(|id|))
  {
    hide EntryOk, EntryText;
    var h := |HeaderText(id, s.updatedAt)|;
    SnapshotIsCanonical(doc, id, s, h);
    HeaderParts(doc, id, s.updatedAt, h);
  }

  /** strchr: the first position of `c` at or after `from`. */
  method FindChar(doc: string, from: nat, c: char) returns (at: nat)
    requires from <= |doc|
    ensures from <= at <= |doc| && (at < |doc| ==> doc[at] == c)
    ensures forall k :: from <= k < at ==> doc[k] != c
  {
    at := from;
    while at < |doc| && doc[at] != c
      invariant from <= at <= |doc| && forall k :: from <= k < at ==> doc[k] != c
    {
      at := at + 1;
    }
  }

  /** Find where the array of a canonical document starts. */
  method ArrayStart(doc: string, id: string, ghost s: Snapshot) returns (a: nat)
    requires Canonical(doc, id, s)
    ensures a == ArrayAt(|id|)
  {
    hide Canonical, HeaderIs;
    ArraySlice(doc, id, s);
    var key := Find(doc, 0, RECORDINGS);
    FirstArrayKey(doc, id, s.updatedAt);
    assert key.value == ArrayKey(|id|);
    BracketAt(doc, key.value);
    a := FindChar(doc, key.value, '[');
    a := a + 1;
  }

  lemma FirstArrayKey(doc: string, id: string, u: string)
    requires HeaderIs(doc, id, u, ArrayAt(|id|))
    ensures forall i: nat :: i < ArrayKey(|id|) ==> !StartsAt(doc, i, RECORDINGS)
  {
    hide HeaderIs;
    forall i: nat | i < ArrayKey(|id|) ensures !StartsAt(doc, i, RECORDINGS) {
      if StartsAt(doc, i, RECORDINGS) {
        StartsAtThree(doc, i, Quoted("recordings"), ":", "[");
        assert Quoted("recordings") + (":" + "[") == RECORDINGS;
        NoEarlierArrayKey(doc, id, u, ArrayAt(|id|), i, "recordings", true);
      }
    }
  }

  lemma BracketAt(doc: string, p: nat)
    requires StartsAt(doc, p, RECORDINGS)
    ensures p + 13 < |doc| && doc[p + 13] == '[' && forall k :: p <= k < p + 13 ==> doc[k] != '['
  {
    forall k | p <= k < p + 14 ensures doc[k] == RECORDINGS[k - p] {
      StartsAtIndex(doc, p, RECORDINGS, k - p);
    }
  }

  /** manifest_file_extends on what the two files hold. */
  method Extends(newDoc: string, oldDoc: string, id: string) returns (ok: bool)
    ensures ok <==> exists n, o :: Canonical(newDoc, id, n) && Canonical(oldDoc, id, o) && o.entries <= n.entries
  {
    hide Canonical, HeaderIs, EntryOk, EntryText;
    var newOk, n := SnapshotValid(newDoc, id);
    var oldOk, o := SnapshotValid(oldDoc, id);
    if !newOk || !oldOk {
      return false;
    }
    var a := ArrayStart(oldDoc, id, o);
    var b := ArrayStart(newDoc, id, n);
    ArraySlice(oldDoc, id, o);
    ArraySlice(newDoc, id, n);
    var aEnd, bEnd := |oldDoc| - 2, |newDoc| - 2;
    var len := aEnd - a;
    ok := aEnd >= a && bEnd >= b && bEnd - b >= len && oldDoc[a..aEnd] == newDoc[b..b + len]
          && (aEnd == a || b + len == bEnd || newDoc[b + len] == ',');
    SliceOfSlice(newDoc, b, bEnd, len);
    assert ok <==> ArrayPrefix(oldDoc[a..aEnd], newDoc[b..bEnd]);
    CanonicalOk(oldDoc, id, o);
    CanonicalOk(newDoc, id, n);
    PrefixIsEntryPrefix(o.entries, n.entries);
    OnlyMeaning(oldDoc, id, o);
    OnlyMeaning(newDoc, id, n);
  }

  lemma SliceOfSlice(doc: string, b: nat, e: nat, len: int)
    requires b <= e <= |doc|
    ensures 0 <= len <= e - b ==> doc[b..e][..len] == doc[b..b + len]
    ensures 0 <= len < e - b ==> doc[b..e][len] == doc[b + len]
  {
  }

  lemma CanonicalOk(doc: string, id: string, s: Snapshot)
    requires Canonical(doc, id, s)
    ensures SnapshotOk(s) && s.deviceId == id
  {
  }

  /** Printing is injective: a canonical document says one thing. */
  lemma PrintUnique(doc: string, id: string, s: Snapshot, t: Snapshot)
    requires Canonical(doc, id, s) && Canonical(doc, id, t)
    ensures s == t
  {
    hide EntryOk, EntryText;
    ArraySlice(doc, id, s);
    ArraySlice(doc, id, t);
    PrintedUnique(doc, 0, HEADER, HeaderValues(id, s.updatedAt), ArrayAt(|id|), HeaderValues(id, t.updatedAt), ArrayAt(|id|));
    PrefixIsEntryPrefix(s.entries, t.entries);
    PrefixIsEntryPrefix(t.entries, s.entries);
  }

  lemma OnlyMeaning(doc: string, id: string, s: Snapshot)
    requires Canonical(doc, id, s)
    ensures forall t :: Canonical(doc, id, t) ==> t == s
  {
    forall t | Canonical(doc, id, t) ensures t == s {
      PrintUnique(doc, id, s, t);
    }
  }
}
