/** The recogniser of manifests: a cursor over the text that accepts exactly the canonical
    documents of a device (manifest_snapshot_valid). */
module ManifestReader {
  import opened Wrappers
  import opened ManifestText
  import opened TextFormat
  import opened ManifestFormat
  import opened ManifestChecks
  import opened ManifestCodec
  import opened Joining
  import opened ManifestEntries
  import opened ManifestSnapshot
  import Calendar

  lemma HeaderShape(v: Values)
    requires Fits(HEADER, v)
    ensures v.Number? && v.tail.Text? && v.tail.tail.Text? && v.tail.tail.tail.Nil?
  {
    NumFieldShape("{\"schemaVersion\":", HEADER.rest.rest, v);
    StrFieldShape(",\"deviceId\":", HEADER.rest.rest.rest.rest, v.tail);
    StrFieldShape(",\"updatedAt\":", Lit(",", Lit(RECORDINGS, End)), v.tail.tail);
    assert Fits(Lit(RECORDINGS, End), v.tail.tail.tail);
    assert Fits(End, v.tail.tail.tail);
  }

  method ReadHeader(doc: string, id: string) returns (ok: bool, updatedAt: string, q: nat)
    ensures ok ==> HeaderIs(doc, id, updatedAt, q)
    ensures !ok ==> forall u, e :: !HeaderIs(doc, id, u, e)
  {
    var found, v;
    found, v, q := Match(doc, 0, HEADER);
    if !found {
      return false, "", q;
    }
    HeaderWell();
    PrintedIsShown(doc, 0, HEADER, v, q);
    HeaderShape(v);
    updatedAt := v.tail.tail.s;
    ok := IsStamp(updatedAt);
    ok := ok && v.n == SCHEMA_VERSION && v.tail.s == id;
    if ok {
      assert Fits(HEADER.rest.rest, v.tail);
    } else {
      forall u, e ensures !HeaderIs(doc, id, u, e) {
        if HeaderIs(doc, id, u, e) {
          PrintedUnique(doc, 0, HEADER, v, q, HeaderValues(id, u), e);
        }
      }
    }
  }

  /** The cursor stands after the entries read so far, past the comma if there is one. */
  ghost predicate Cursor(doc: string, start: nat, es: seq<Entry>, p: nat) {
    Listed(doc, start, es, |es|) && start <= |doc| &&
    var e := Stop(start, es, |es|);
    || (p == e && (es == [] || (p < |doc| ==> doc[p] == ']')))
    || (es != [] && p == e + 1 && StartsAt(doc, e, ",") && p < |doc| && doc[p] == '{')
  }

  /** If the document is canonical, what was read so far is how it starts. */
  ghost predicate Agrees(doc: string, id: string, start: nat, es: seq<Entry>, want: Option<Snapshot>) {
    want.Some? ==> SnapshotIs(doc, id, want.value, start) && es <= want.value.entries
  }

  /** The ids read so far differ and do not occur again. */
  ghost predicate Apart(doc: string, es: seq<Entry>, p: nat) {
    DistinctIds(es) && forall i: nat, k: nat :: i < |es| && p <= k ==> !StartsAt(doc, k, Needle(es[i].id))
  }

  lemma AtEntry(doc: string, start: nat, es: seq<Entry>, p: nat)
    requires Cursor(doc, start, es, p) && p < |doc| && doc[p] != ']'
    ensures p == Place(start, es, |es|) && StartsAt(doc, Stop(start, es, |es|), Comma(|es|))
  {
  }

  /** Where the entries of a canonical document end, the closing brackets follow. */
  lemma AfterLast(doc: string, id: string, s: Snapshot, start: nat)
    requires SnapshotIs(doc, id, s, start)
    ensures var e := Stop(start, s.entries, |s.entries|); e + 2 == |doc| && doc[e] == ']'
  {
    StartsAtIndex(doc, Stop(start, s.entries, |s.entries|), "]}", 0);
  }

  /** Between two entries a comma stands, and then the next entry's brace. */
  lemma Between(doc: string, start: nat, es: seq<Entry>, n: nat)
    requires Listed(doc, start, es, |es|) && 0 < n < |es|
    ensures var e := Stop(start, es, n); e + 1 < |doc| && doc[e] == ',' && doc[e + 1] == '{'
  {
    hide EntryOk, EntryText, EntryIs, Joined, Texts;
    var e := Stop(start, es, n);
    Stands(doc, start, es, |es|, n);
    StartsAtIndex(doc, e, ",", 0);
    Brace(doc, e + 1, es[n], Stop(start, es, n + 1));
  }

  /** At an entry of a canonical document, its next entry stands. */
  lemma NextEntry(doc: string, id: string, start: nat, es: seq<Entry>, s: Snapshot, p: nat)
    requires Cursor(doc, start, es, p) && p < |doc| && doc[p] != ']'
    requires SnapshotIs(doc, id, s, start) && es <= s.entries
    ensures |es| < |s.entries| && EntryIs(doc, p, s.entries[|es|], Stop(start, s.entries, |es| + 1))
  {
    hide EntryOk, EntryText, EntryIs, StartsAt, Joined, Texts, HeaderIs, Listed, DistinctIds;
    SamePlaces(start, es, s.entries, |es|);
    AtEntry(doc, start, es, p);
    if |es| < |s.entries| {
      Stands(doc, start, s.entries, |s.entries|, |es|);
    } else {
      AfterLast(doc, id, s, start);
      CommaIsNotBracket(doc, start, es, p);
    }
  }

  lemma ReadIsNext(doc: string, id: string, start: nat, es: seq<Entry>, s: Snapshot, p: nat, e: Entry, q: nat)
    requires Cursor(doc, start, es, p) && p < |doc| && doc[p] != ']' && EntryIs(doc, p, e, q)
    requires SnapshotIs(doc, id, s, start) && es <= s.entries
    ensures |es| < |s.entries| && e == s.entries[|es|] && q == Stop(start, s.entries, |es| + 1)
  {
    hide EntryOk, EntryText, EntryIs;
    NextEntry(doc, id, start, es, s, p);
    EntryUnique(doc, p, e, q, s.entries[|es|], Stop(start, s.entries, |es| + 1));
  }

  lemma CommaIsNotBracket(doc: string, start: nat, es: seq<Entry>, p: nat)
    requires Cursor(doc, start, es, p) && p < |doc| && doc[p] != ']'
    ensures doc[Stop(start, es, |es|)] != ']'
  {
    if p != Stop(start, es, |es|) {
      StartsAtIndex(doc, Stop(start, es, |es|), ",", 0);
    }
  }

  /** In a canonical document an id does not occur again after its entry. */
  lemma NotRepeated(doc: string, id: string, s: Snapshot, start: nat, n: nat, h: nat)
    requires SnapshotIs(doc, id, s, start) && n < |s.entries| && Stop(start, s.entries, n + 1) <= h
    ensures !StartsAt(doc, h, Needle(s.entries[n].id))
  {
    var es, all := s.entries, |s.entries|;
    if StartsAt(doc, h, Needle(es[n].id)) {
      UuidSafe(es[n].id);
      NeedleFits(doc, h, es[n].id, Stop(start, es, all));
      var j := NeedleInEntries(doc, start, es, all, h, es[n].id);
      if j <= n {
        PlacesGrow(start, es, j, n);
      }
    }
  }

  /** The needle is longer than the closing brackets. */
  lemma NeedleFits(doc: string, h: nat, id: string, e: nat)
    requires StartsAt(doc, h, Needle(id)) && |doc| == e + 2
    ensures h < e
  {
  }

  lemma PlacesGrow(p: nat, es: seq<Entry>, j: nat, n: nat)
    requires AllOk(es) && j <= n < |es|
    ensures Place(p, es, j) + 1 < Stop(p, es, n + 1)
  {
    hide EntryOk, EntryText;
    var ts := Texts(es);
    JoinedGrows(ts, j + 1, n + 1);
    EntryLong(es[j]);
    assert Joined(ts, j + 1) == Joined(ts, j) + (Comma(j) + ts[j]);
  }

  lemma EntryLong(e: Entry)
    requires EntryOk(e)
    ensures |EntryText(e)| > 16
  {
    var t := EntryText(e);
    assert StartsAt(t, 0, t);
    EntryIsText(t, 0, e, |t|);
    Brace(t, 0, e, |t|);
  }

  /** A new entry's id differs from the ids before it. */
  lemma StaysApart(doc: string, es: seq<Entry>, p: nat, e: Entry, q: nat)
    requires Apart(doc, es, p) && EntryIs(doc, p, e, q)
    requires forall k: nat :: q <= k < |doc| ==> !StartsAt(doc, k, Needle(e.id))
    ensures Apart(doc, es + [e], q)
  {
    NeedleStands(doc, p, e, q);
    Brace(doc, p, e, q);
    forall i: nat | i < |es| ensures es[i].id != e.id {
      assert !StartsAt(doc, p + 1, Needle(es[i].id));
    }
    var all := es + [e];
    forall i: nat, k: nat | i < |all| && q <= k ensures !StartsAt(doc, k, Needle(all[i].id)) {
      assert k < |doc| || |Needle(all[i].id)| > 0;
    }
  }

  lemma CursorStep(doc: string, start: nat, es: seq<Entry>, q: nat, p: nat)
    requires Listed(doc, start, es, |es|) && es != [] && q == Stop(start, es, |es|) && start <= |doc|
    requires (p == q && (p < |doc| ==> doc[p] == ']')) || (p == q + 1 < |doc| && doc[q] == ',' && doc[p] == '{')
    ensures Cursor(doc, start, es, p)
  {
    hide EntryOk, EntryText;
  }

  lemma ApartLater(doc: string, es: seq<Entry>, q: nat, p: nat)
    requires Apart(doc, es, q) && q <= p
    ensures Apart(doc, es, p)
  {
  }

  lemma ApartIsDistinct(doc: string, es: seq<Entry>, p: nat)
    requires Apart(doc, es, p)
    ensures DistinctIds(es)
  {
  }

  /** One more entry was read: it is listed after the others. */
  lemma Grow(doc: string, start: nat, es: seq<Entry>, p: nat, e: Entry, q: nat)
    requires Cursor(doc, start, es, p) && p < |doc| && doc[p] != ']' && EntryIs(doc, p, e, q)
    ensures start <= |doc| && p < q <= |doc| && AllOk(es + [e]) && Listed(doc, start, es + [e], |es| + 1) && q == Stop(start, es + [e], |es| + 1)
  {
    hide EntryOk, EntryText, EntryIs;
    AtEntry(doc, start, es, p);
    Append(doc, start, es, e, q);
    Brace(doc, p, e, q);
  }

  lemma GrowAgrees(doc: string, id: string, start: nat, es: seq<Entry>, e: Entry, want: Option<Snapshot>)
    requires Agrees(doc, id, start, es, want) && (want.Some? ==> |es| < |want.value.entries| && e == want.value.entries[|es|])
    ensures Agrees(doc, id, start, es + [e], want)
  {
    hide SnapshotIs;
  }

  lemma WhatFollows(doc: string, id: string, s: Snapshot, start: nat, es: seq<Entry>)
    requires SnapshotIs(doc, id, s, start) && es != [] && AllOk(es) && es <= s.entries
    ensures var q := Stop(start, es, |es|); q + 1 < |doc| && (doc[q] == ']' || (doc[q] == ',' && doc[q + 1] == '{'))
  {
    hide EntryOk, EntryText;
    SamePlaces(start, es, s.entries, |es|);
    if |es| < |s.entries| {
      Between(doc, start, s.entries, |es|);
    } else {
      AfterLast(doc, id, s, start);
    }
  }

  /** A canonical document holds no NUL. */
  lemma NoNul(doc: string, id: string, s: Snapshot)
    requires Canonical(doc, id, s)
    ensures '\0' !in doc
  {
    HeaderFits(id, s.updatedAt);
    HeaderWell();
    ShowPrintable(HEADER, HeaderValues(id, s.updatedAt));
    EntriesPrintable(s.entries, |s.entries|);
    assert Printable("]}");
  }

  lemma {:induction false} EntriesPrintable(es: seq<Entry>, n: nat)
    requires AllOk(es) && n <= |es|
    ensures Printable(Joined(Texts(es), n))
  {
    hide EntryOk, EntryText;
    if n > 0 {
      EntriesPrintable(es, n - 1);
      EntryPrintable(es[n - 1]);
    }
  }

  lemma EntryPrintable(e: Entry)
    requires EntryOk(e)
    ensures Printable(EntryText(e))
  {
    EntryFits(e);
    EntryWell();
    ShowPrintable(ENTRY, EntryValues(e));
  }

  /** The header read is the header of the canonical document. */
  lemma HeaderAgrees(doc: string, id: string, s: Snapshot, updatedAt: string, start: nat)
    requires Canonical(doc, id, s) && HeaderIs(doc, id, updatedAt, start)
    ensures SnapshotIs(doc, id, s, start) && s.updatedAt == updatedAt
  {
    var h := |HeaderText(id, s.updatedAt)|;
    SnapshotIsCanonical(doc, id, s, h);
    PrintedUnique(doc, 0, HEADER, HeaderValues(id, updatedAt), start, HeaderValues(id, s.updatedAt), h);
  }

  lemma HeaderWanted(doc: string, id: string, s: Snapshot)
    requires Canonical(doc, id, s)
    ensures exists u, e :: HeaderIs(doc, id, u, e)
  {
    SnapshotIsCanonical(doc, id, s, |HeaderText(id, s.updatedAt)|);
  }

  lemma CursorStarts(doc: string, id: string, updatedAt: string, start: nat)
    requires HeaderIs(doc, id, updatedAt, start)
    ensures Cursor(doc, start, [], start) && Apart(doc, [], start)
  {
    PrintedForward(doc, 0, HEADER, HeaderValues(id, updatedAt), start);
  }

  /** Where the cursor stops before closing brackets, the document is canonical. */
  lemma FinishClosed(doc: string, id: string, updatedAt: string, start: nat, es: seq<Entry>, p: nat)
    requires HeaderIs(doc, id, updatedAt, start) && Cursor(doc, start, es, p) && DistinctIds(es) && Closed(doc, p) && doc[p] == ']'
    ensures Canonical(doc, id, Snapshot(id, updatedAt, es))
  {
    SnapshotIsCanonical(doc, id, Snapshot(id, updatedAt, es), start);
  }

  /** Where the cursor stops in a canonical document, the closing brackets stand. */
  lemma FinishOpen(doc: string, id: string, start: nat, es: seq<Entry>, p: nat, s: Snapshot)
    requires Cursor(doc, start, es, p) && (p < |doc| ==> doc[p] == ']') && SnapshotIs(doc, id, s, start) && es <= s.entries
    ensures Closed(doc, p)
  {
    hide EntryOk, EntryText, EntryIs, StartsAt, Joined, Texts, HeaderIs, Listed, DistinctIds;
    SamePlaces(start, es, s.entries, |es|);
    if |es| < |s.entries| {
      Stands(doc, start, s.entries, |s.entries|, |es|);
      Brace(doc, Place(start, s.entries, |es|), s.entries[|es|], Stop(start, s.entries, |es| + 1));
    }
  }

  /** Read a document: exactly the canonical ones of the device are accepted. */
  method SnapshotValid(doc: string, id: string) returns (ok: bool, s: Snapshot)
    ensures ok ==> Canonical(doc, id, s)
    ensures !ok ==> forall t :: !Canonical(doc, id, t)
  {
    hide EntryOk, EntryText, Print, Canonical, Apart, EntryIs, HeaderIs, SnapshotIs, HeaderText, Cursor, Listed, Stop;
    ghost var want := Meaning(doc, id);
    s := Snapshot(id, "", []);
    if '\0' in doc {
      if want.Some? {
        NoNul(doc, id, want.value);
      }
      return false, s;
    }
    var ok1, updatedAt, start := ReadHeader(doc, id);
    if !ok1 {
      if want.Some? {
        HeaderWanted(doc, id, want.value);
      }
      return false, s;
    }
    if want.Some? {
      HeaderAgrees(doc, id, want.value, updatedAt, start);
    }
    CursorStarts(doc, id, updatedAt, start);
    var p, es := start, [];
    while p < |doc| && doc[p] != ']'
      invariant Cursor(doc, start, es, p) && Apart(doc, es, p)
      invariant Agrees(doc, id, start, es, want)
      decreases |doc| - p
    {
      if want.Some? {
        NextEntry(doc, id, start, es, want.value, p);
      }
      var got, e, q := ReadEntry(doc, p);
      if !got {
        return false, s;
      }
      if want.Some? {
        ReadIsNext(doc, id, start, es, want.value, p, e, q);
      }
      Grow(doc, start, es, p, e, q);
      var again := Find(doc, q, Needle(e.id));
      if again.Some? {
        if want.Some? {
          NotRepeated(doc, id, want.value, start, |es|, again.value);
        }
        return false, s;
      }
      StaysApart(doc, es, p, e, q);
      GrowAgrees(doc, id, start, es, e, want);
      es := es + [e];
      if want.Some? {
        WhatFollows(doc, id, want.value, start, es);
      }
      if q < |doc| && doc[q] == ',' {
        p := q + 1;
        if p == |doc| || doc[p] != '{' {
          return false, s;
        }
      } else {
        p := q;
        if p < |doc| && doc[p] != ']' {
          return false, s;
        }
      }
      CursorStep(doc, start, es, q, p);
      ApartLater(doc, es, q, p);
    }
    if !StartsAt(doc, p, "]}") || p + 2 != |doc| {
      if want.Some? {
        FinishOpen(doc, id, start, es, p, want.value);
      }
      return false, s;
    }
    ApartIsDistinct(doc, es, p);
    FinishClosed(doc, id, updatedAt, start, es, p);
    return true, Snapshot(id, updatedAt, es);
  }
}
