/** The recordings array: entries separated by commas, and where a recordingId key can stand. */
module ManifestEntries {
  import opened ManifestText
  import opened TextFormat
  import opened ManifestFormat
  import opened ManifestCodec
  import opened Joining

  predicate AllOk(es: seq<Entry>) {
    forall i :: 0 <= i < |es| ==> EntryOk(es[i])
  }

  function Texts(es: seq<Entry>): (ts: seq<string>)
    requires AllOk(es)
    ensures |ts| == |es| && forall i :: 0 <= i < |es| ==> ts[i] == EntryText(es[i])
  {
    seq(|es|, i requires 0 <= i < |es| => EntryText(es[i]))
  }

  /** The first `n` entries, with a comma between neighbours, stand at `p`. */
  predicate Listed(doc: string, p: nat, es: seq<Entry>, n: nat) {
    AllOk(es) && n <= |es| && StartsAt(doc, p, Joined(Texts(es), n))
  }

  /** Entry `k` of the array that starts at `p` begins at `Place` and ends at `Stop(k + 1)`. */
  function Place(p: nat, es: seq<Entry>, k: nat): nat
    requires AllOk(es) && k <= |es|
  {
    At(p, Texts(es), k)
  }

  function Stop(p: nat, es: seq<Entry>, n: nat): nat
    requires AllOk(es) && n <= |es|
  {
    Ends(p, Texts(es), n)
  }

  /** Each entry of a listed sequence stands at its place, after its comma. */
  lemma Stands(doc: string, p: nat, es: seq<Entry>, n: nat, k: nat)
    requires Listed(doc, p, es, n) && k < n
    ensures Listed(doc, p, es, k) && StartsAt(doc, Stop(p, es, k), Comma(k))
    ensures EntryIs(doc, Place(p, es, k), es[k], Stop(p, es, k + 1)) && Stop(p, es, k + 1) <= Stop(p, es, n)
  {
    PartStands(doc, p, Texts(es), n, k);
    EntryIsText(doc, Place(p, es, k), es[k], Stop(p, es, k + 1));
  }

  lemma TextsAppend(es: seq<Entry>, e: Entry)
    requires AllOk(es) && EntryOk(e)
    ensures AllOk(es + [e]) && Texts(es + [e]) == Texts(es) + [EntryText(e)]
  {
  }

  /** One more entry after those already listed. */
  lemma Append(doc: string, p: nat, es: seq<Entry>, e: Entry, q: nat)
    requires Listed(doc, p, es, |es|) && StartsAt(doc, Stop(p, es, |es|), Comma(|es|))
    requires EntryIs(doc, Place(p, es, |es|), e, q)
    ensures Listed(doc, p, es + [e], |es| + 1) && q == Stop(p, es + [e], |es| + 1)
  {
    hide EntryOk, EntryText;
    EntryIsText(doc, Place(p, es, |es|), e, q);
    TextsAppend(es, e);
    AppendText(doc, p, Texts(es), Texts(es + [e]), EntryText(e), |es|);
  }

  lemma AppendText(doc: string, p: nat, ts: seq<string>, all: seq<string>, t: string, n: nat)
    requires n == |ts| && |all| == n + 1 && all[n] == t && (forall i :: 0 <= i < n ==> all[i] == ts[i])
    requires StartsAt(doc, p, Joined(ts, n)) && StartsAt(doc, Ends(p, ts, n), Comma(n)) && StartsAt(doc, At(p, ts, n), t)
    ensures StartsAt(doc, p, Joined(all, n + 1)) && Ends(p, all, n + 1) == At(p, ts, n) + |t|
  {
    SamePrefix(ts, all, n);
    hide Joined, StartsAt;
    LastStands(doc, p, all, n);
  }

  /** A prefix of the entries is listed at the same places. */
  lemma SamePlaces(p: nat, es: seq<Entry>, all: seq<Entry>, k: nat)
    requires AllOk(all) && es <= all && k <= |es|
    ensures AllOk(es) && Stop(p, es, k) == Stop(p, all, k) && Place(p, es, k) == Place(p, all, k)
  {
    forall i | 0 <= i < |es| ensures es[i] == all[i] {
    }
    SamePrefix(Texts(es), Texts(all), k);
  }

  /** An entry starts with a brace and its recordingId. */
  lemma Brace(doc: string, p: nat, e: Entry, q: nat)
    requires EntryIs(doc, p, e, q)
    ensures p + 16 < q <= |doc| && doc[p] == '{' && StringIs(doc, p + 15, e.id)
    ensures StartsAt(doc, p + 1, "\"recordingId\":") && Printed(doc, p + 15, ENTRY.rest, EntryValues(e), q)
  {
    EntryIsText(doc, p, e, q);
    assert ENTRY.text == "{" + "\"recordingId\":";
    StartsAtConcat(doc, p, "{", "\"recordingId\":");
    StartsAtIndex(doc, p, "{", 0);
    PrintedForward(doc, p + 15, ENTRY.rest, EntryValues(e), q);
    PrintedForward(doc, p + 15 + |e.id| + 2, ENTRY.rest.rest, EntryValues(e).tail, q);
  }

  // ----- recordingId keys -----

  const ID_KEY := "recordingId"

  lemma IdKeyName()
    ensures KeyName(ID_KEY)
  {
  }

  /** Within one entry the key stands only right after the brace. */
  lemma KeyInEntry(doc: string, p: nat, e: Entry, q: nat, h: nat)
    requires EntryIs(doc, p, e, q) && p <= h < q && KeyAt(doc, h, ID_KEY, true)
    ensures h == p + 1
  {
    Brace(doc, p, e, q);
    if h >= p + 15 {
      BodyKeyless();
      IdKeyName();
      NoKey(ENTRY.rest, EntryValues(e), doc, p + 15, q, h, ID_KEY, true);
    } else if h != p + 1 {
      NotAgain(doc, p, h);
    }
  }

  lemma NotAgain(doc: string, p: nat, h: nat)
    requires StartsAt(doc, p, ENTRY.text) && p <= h < p + 15 && h != p + 1
    ensures !KeyAt(doc, h, ID_KEY, true)
  {
    StartsAtIndex(doc, p, ENTRY.text, h - p);
    if h == p + 13 {
      StartsAtIndex(doc, p, ENTRY.text, 14);
    }
    NoQuoteNoKey(doc, h, ID_KEY, true);
  }

  /** Within the array the key stands only at the start of an entry. */
  lemma KeyInEntries(doc: string, p: nat, es: seq<Entry>, n: nat, h: nat) returns (j: nat)
    requires Listed(doc, p, es, n) && p <= h < Stop(p, es, n) && KeyAt(doc, h, ID_KEY, true)
    ensures j < n && h == Place(p, es, j) + 1
  {
    j := PartAt(doc, p, Texts(es), n, h);
    if h < Place(p, es, j) {
      NoQuoteNoKey(doc, h, ID_KEY, true);
    } else {
      Stands(doc, p, es, n, j);
      KeyInEntry(doc, Place(p, es, j), es[j], Stop(p, es, j + 1), h);
    }
  }

  /** The text that proves an id is taken. */
  function Needle(id: string): string {
    "\"recordingId\":" + Quoted(id)
  }

  lemma NeedleKey(doc: string, h: nat, id: string)
    ensures StartsAt(doc, h, Needle(id)) <==> KeyAt(doc, h, ID_KEY, true) && StartsAt(doc, h + 14, Quoted(id))
  {
    StartsAtConcat(doc, h, "\"recordingId\":", Quoted(id));
    StartsAtConcat(doc, h, Quoted(ID_KEY), ":");
    assert Quoted(ID_KEY) + ":" == "\"recordingId\":";
  }

  lemma NeedleInEntry(doc: string, p: nat, e: Entry, q: nat, id: string)
    requires EntryIs(doc, p, e, q) && Safe(id) && StartsAt(doc, p + 15, Quoted(id))
    ensures e.id == id
  {
    Brace(doc, p, e, q);
    QuotedUnique(doc, p + 15, id, e.id);
  }

  /** In the array, the needle stands exactly at the entry with that id. */
  lemma NeedleInEntries(doc: string, p: nat, es: seq<Entry>, n: nat, h: nat, id: string) returns (j: nat)
    requires Listed(doc, p, es, n) && p <= h < Stop(p, es, n) && Safe(id) && StartsAt(doc, h, Needle(id))
    ensures j < n && h == Place(p, es, j) + 1 && es[j].id == id
  {
    hide EntryOk, EntryText, EntryIs, Needle;
    NeedleKey(doc, h, id);
    j := KeyInEntries(doc, p, es, n, h);
    Stands(doc, p, es, n, j);
    assert h + 14 == Place(p, es, j) + 15;
    NeedleInEntry(doc, Place(p, es, j), es[j], Stop(p, es, j + 1), id);
  }

  lemma NeedleStands(doc: string, p: nat, e: Entry, q: nat)
    requires EntryIs(doc, p, e, q)
    ensures StartsAt(doc, p + 1, Needle(e.id))
  {
    Brace(doc, p, e, q);
    StartsAtConcat(doc, p + 1, "\"recordingId\":", Quoted(e.id));
  }
}
