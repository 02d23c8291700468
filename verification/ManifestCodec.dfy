/** The canonical manifest: printing a snapshot, recognising the text, and the recogniser that
    walks it with a cursor (manifest_snapshot_valid). */
module ManifestCodec {
  import opened Bytes
  import opened ManifestText
  import opened TextFormat
  import opened ManifestFormat
  import opened ManifestChecks
  import Calendar

  // ----- One entry -----

  function EntryText(e: Entry): string
    requires EntryOk(e)
  {
    EntryFits(e);
    Show(ENTRY, EntryValues(e))
  }

  /** The entry `e` is printed between `p` and `q`. */
  predicate EntryIs(doc: string, p: nat, e: Entry, q: nat) {
    EntryOk(e) && Printed(doc, p, ENTRY, EntryValues(e), q)
  }

  lemma EntryIsText(doc: string, p: nat, e: Entry, q: nat)
    requires EntryOk(e)
    ensures EntryIs(doc, p, e, q) <==> StartsAt(doc, p, EntryText(e)) && q == p + |EntryText(e)|
  {
    EntryFits(e);
    EntryWell();
    PrintedIsShown(doc, p, ENTRY, EntryValues(e), q);
  }

  lemma EntryUnique(doc: string, p: nat, e: Entry, q: nat, e': Entry, q': nat)
    requires EntryIs(doc, p, e, q) && EntryIs(doc, p, e', q')
    ensures e == e' && q == q'
  {
    PrintedUnique(doc, p, ENTRY, EntryValues(e), q, EntryValues(e'), q');
  }

  predicate LabelShape(v: Values) {
    v.Text? && v.tail.Text? && v.tail.tail.Nil?
  }

  predicate AudioShape(v: Values) {
    v.Number? && v.tail.Number? && v.tail.tail.Number? && LabelShape(v.tail.tail.tail)
  }

  predicate ContentShape(v: Values) {
    v.Number? && v.tail.Number? && v.tail.tail.Text? && AudioShape(v.tail.tail.tail)
  }

  predicate EntryShape(v: Values) {
    v.Text? && v.tail.Text? && v.tail.tail.Text? && ContentShape(v.tail.tail.tail)
  }

  lemma StrFieldShape(text: string, rest: Format, v: Values)
    requires Fits(StrField(text, rest), v)
    ensures v.Text? && Safe(v.s) && Fits(rest, v.tail)
  {
  }

  lemma NumFieldShape(text: string, rest: Format, v: Values)
    requires Fits(NumField(text, rest), v)
    ensures v.Number? && v.n < UINT32 && Fits(rest, v.tail)
  {
  }

  lemma LabelsShape(v: Values)
    requires Fits(LABELS, v)
    ensures LabelShape(v) && Safe(v.tail.s)
  {
    StrFieldShape(",\"state\":", LABELS.rest.rest, v);
    StrFieldShape(",\"firmwareVersion\":", CLOSE, v.tail);
  }

  lemma AudiosShape(v: Values)
    requires Fits(AUDIO, v)
    ensures AudioShape(v) && Fits(LABELS, v.tail.tail.tail)
  {
    NumFieldShape(",\"sampleRate\":", AUDIO.rest.rest, v);
    NumFieldShape(",\"bitDepth\":", AUDIO.rest.rest.rest.rest, v.tail);
    NumFieldShape(",\"channels\":", LABELS, v.tail.tail);
    LabelsShape(v.tail.tail.tail);
  }

  lemma ContentsShape(v: Values)
    requires Fits(CONTENT, v)
    ensures ContentShape(v) && v.tail.n < UINT32 && Safe(v.tail.tail.tail.tail.tail.tail.tail.s)
  {
    NumFieldShape(",\"durationMs\":", CONTENT.rest.rest, v);
    NumFieldShape(",\"sizeBytes\":", CONTENT.rest.rest.rest.rest, v.tail);
    StrFieldShape(",\"sha256\":", AUDIO, v.tail.tail);
    AudiosShape(v.tail.tail.tail);
    LabelsShape(v.tail.tail.tail.tail.tail.tail);
  }

  lemma EntriesShape(v: Values)
    requires Fits(ENTRY, v)
    ensures EntryShape(v) && Safe(v.tail.s) && Fits(CONTENT, v.tail.tail.tail)
  {
    StrFieldShape("{\"recordingId\":", ENTRY.rest.rest, v);
    StrFieldShape(",\"filename\":", ENTRY.rest.rest.rest.rest, v.tail);
    StrFieldShape(",\"startedAt\":", CONTENT, v.tail.tail);
    ContentsShape(v.tail.tail.tail);
  }

  function ToEntry(v: Values): (e: Entry)
    requires EntryShape(v)
  {
    var content := v.tail.tail.tail;
    var audio := content.tail.tail.tail;
    var labels := audio.tail.tail.tail;
    Entry(v.s, v.tail.s, v.tail.tail.s, content.n, content.tail.n, content.tail.tail.s, labels.s, labels.tail.s)
  }

  /** Read one entry and check its fields. */
  method ReadEntry(doc: string, p: nat) returns (ok: bool, e: Entry, q: nat)
    ensures ok ==> EntryIs(doc, p, e, q)
    ensures !ok ==> forall e', q' :: !EntryIs(doc, p, e', q')
  {
    var found, v;
    found, v, q := Match(doc, p, ENTRY);
    if !found {
      return false, Entry("", "", "", 0, 0, "", "", ""), q;
    }
    EntryWell();
    PrintedIsShown(doc, p, ENTRY, v, q);
    EntriesShape(v);
    e := ToEntry(v);
    ok := IsEntry(e);
    ok := ok && v == EntryValues(e);
    if !ok {
      forall e', q' ensures !EntryIs(doc, p, e', q') {
        if EntryIs(doc, p, e', q') {
          PrintedUnique(doc, p, ENTRY, v, q, EntryValues(e'), q');
        }
      }
    }
  }
}
