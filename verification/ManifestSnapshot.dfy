/** The whole manifest document: header, entries with distinct recordingIds, closing brackets. */
module ManifestSnapshot {
  import opened Wrappers
  import opened ManifestText
  import opened TextFormat
  import opened ManifestFormat
  import opened ManifestCodec
  import opened Joining
  import opened ManifestEntries
  import Calendar

  predicate DistinctIds(es: seq<Entry>) {
    forall i, j :: 0 <= i < j < |es| ==> es[i].id != es[j].id
  }

  predicate SnapshotOk(s: Snapshot) {
    Safe(s.deviceId) && Calendar.ValidStamp(s.updatedAt) && AllOk(s.entries) && DistinctIds(s.entries)
  }

  function HeaderText(deviceId: string, updatedAt: string): string
    requires Safe(deviceId) && Calendar.ValidStamp(updatedAt)
  {
    HeaderFits(deviceId, updatedAt);
    Show(HEADER, HeaderValues(deviceId, updatedAt))
  }

  /** The one text that says `s`. */
  function Print(s: Snapshot): string
    requires SnapshotOk(s)
  {
    HeaderText(s.deviceId, s.updatedAt) + (Joined(Texts(s.entries), |s.entries|) + "]}")
  }

  /** `doc` is the canonical text of a snapshot of the device `id`. */
  predicate Canonical(doc: string, id: string, s: Snapshot) {
    SnapshotOk(s) && s.deviceId == id && doc == Print(s)
  }

  predicate HeaderIs(doc: string, deviceId: string, updatedAt: string, q: nat) {
    Safe(deviceId) && Calendar.ValidStamp(updatedAt) && Printed(doc, 0, HEADER, HeaderValues(deviceId, updatedAt), q)
  }

  lemma HeaderIsText(doc: string, deviceId: string, updatedAt: string, q: nat)
    requires Safe(deviceId) && Calendar.ValidStamp(updatedAt)
    ensures HeaderIs(doc, deviceId, updatedAt, q)
        <==> StartsAt(doc, 0, HeaderText(deviceId, updatedAt)) && q == |HeaderText(deviceId, updatedAt)|
  {
    HeaderFits(deviceId, updatedAt);
    HeaderWell();
    PrintedIsShown(doc, 0, HEADER, HeaderValues(deviceId, updatedAt), q);
  }

  /** The closing brackets stand at `p` and end the document. */
  predicate Closed(doc: string, p: nat) {
    StartsAt(doc, p, "]}") && |doc| == p + 2
  }

  /** A canonical document, field by field: the recordings start at `start`. */
  predicate SnapshotIs(doc: string, id: string, s: Snapshot, start: nat) {
    && SnapshotOk(s) && s.deviceId == id && HeaderIs(doc, id, s.updatedAt, start)
    && Listed(doc, start, s.entries, |s.entries|) && Closed(doc, Stop(start, s.entries, |s.entries|))
  }

  lemma ClosedText(doc: string, h: string, j: string)
    ensures doc == h + (j + "]}") <==> StartsAt(doc, 0, h) && StartsAt(doc, |h|, j) && Closed(doc, |h| + |j|)
  {
    var whole := h + (j + "]}");
    if |doc| == |whole| {
      assert doc[0..|whole|] == doc;
      StartsAtThree(doc, 0, h, j, "]}");
      assert StartsAt(doc, 0, whole) <==> doc == whole;
    }
  }

  lemma SnapshotIsCanonical(doc: string, id: string, s: Snapshot, start: nat)
    requires SnapshotOk(s) && s.deviceId == id
    ensures SnapshotIs(doc, id, s, start) <==> doc == Print(s) && start == |HeaderText(id, s.updatedAt)|
  {
    HeaderIsText(doc, id, s.updatedAt, start);
    ClosedText(doc, HeaderText(id, s.updatedAt), Joined(Texts(s.entries), |s.entries|));
  }

  /** The snapshot that `doc` is the canonical text of. */
  ghost function Meaning(doc: string, id: string): (m: Option<Snapshot>)
    ensures m.Some? ==> Canonical(doc, id, m.value)
    ensures m.None? ==> forall s :: !Canonical(doc, id, s)
  {
    if s :| Canonical(doc, id, s) then Some(s) else None
  }
}
