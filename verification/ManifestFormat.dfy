/** What a device manifest says, and the one text that says it. */
module ManifestFormat {
  import opened Audio
  import opened Bytes
  import opened ManifestText
  import opened TextFormat
  import Calendar

  const SCHEMA_VERSION: nat := 1

  datatype Entry = Entry(
    id: string, filename: string, startedAt: string, durationMs: nat, sizeBytes: nat,
    sha256: string, state: string, firmware: string)

  datatype Snapshot = Snapshot(deviceId: string, updatedAt: string, entries: seq<Entry>)

  predicate IsHex(c: char) {
    '0' <= c <= '9' || 'a' <= c <= 'f' || 'A' <= c <= 'F'
  }

  predicate ValidUuid(s: string) {
    |s| == 36 && forall i :: 0 <= i < 36 ==> if i in {8, 13, 18, 23} then s[i] == '-' else IsHex(s[i])
  }

  predicate LowerHex(c: char) {
    '0' <= c <= '9' || 'a' <= c <= 'f'
  }

  predicate ValidSha256(s: string) {
    |s| == 64 && forall i :: 0 <= i < 64 ==> LowerHex(s[i])
  }

  /** A path relative to the card's root that names a finalized recording. */
  predicate ValidFilename(s: string) {
    5 <= |s| <= 180 && StartsAt(s, 0, "recordings/") && StartsAt(s, |s| - 4, ".wav") && Safe(s)
  }

  function DurationMs(payload: nat): nat {
    payload / 32
  }

  predicate EntryOk(e: Entry) {
    && ValidUuid(e.id) && ValidFilename(e.filename) && Calendar.ValidStamp(e.startedAt)
    && HEADER_SIZE <= e.sizeBytes < UINT32 && (e.sizeBytes - HEADER_SIZE) % BLOCK_ALIGN == 0
    && e.durationMs == DurationMs(e.sizeBytes - HEADER_SIZE)
    && ValidSha256(e.sha256) && e.state in {"finalized", "recovered"}
    && 1 <= |e.firmware| <= 32 && Safe(e.firmware)
  }

  function StrField(text: string, rest: Format): Format {
    Lit(text, Str(rest))
  }

  function NumField(text: string, rest: Format): Format {
    Lit(text, Num(rest))
  }

  const CLOSE := Lit("}", End)
  const LABELS := StrField(",\"state\":", StrField(",\"firmwareVersion\":", CLOSE))
  const AUDIO := NumField(",\"sampleRate\":", NumField(",\"bitDepth\":", NumField(",\"channels\":", LABELS)))
  const CONTENT := NumField(",\"durationMs\":", NumField(",\"sizeBytes\":", StrField(",\"sha256\":", AUDIO)))

  /** The canonical text of one entry. */
  const ENTRY := StrField("{\"recordingId\":", StrField(",\"filename\":", StrField(",\"startedAt\":", CONTENT)))

  function LabelValues(e: Entry): Values {
    Text(e.state, Text(e.firmware, Nil))
  }

  function AudioValues(e: Entry): Values {
    Number(SAMPLE_RATE, Number(BITS, Number(CHANNELS, LabelValues(e))))
  }

  function ContentValues(e: Entry): Values {
    Number(e.durationMs, Number(e.sizeBytes, Text(e.sha256, AudioValues(e))))
  }

  function EntryValues(e: Entry): Values {
    Text(e.id, Text(e.filename, Text(e.startedAt, ContentValues(e))))
  }

  const RECORDINGS := "\"recordings\":["
  const HEADER := NumField("{\"schemaVersion\":", StrField(",\"deviceId\":", StrField(",\"updatedAt\":",
    Lit(",", Lit(RECORDINGS, End)))))

  function HeaderValues(deviceId: string, updatedAt: string): Values {
    Number(SCHEMA_VERSION, Text(deviceId, Text(updatedAt, Nil)))
  }

  lemma UuidSafe(s: string)
    requires ValidUuid(s)
    ensures Safe(s)
  {
    forall i | 0 <= i < |s| ensures SafeChar(s[i]) {
      assert s[i] == '-' || IsHex(s[i]);
    }
  }

  lemma StampSafe(s: string)
    requires Calendar.ValidStamp(s)
    ensures Safe(s)
  {
    forall i | 0 <= i < |s| ensures SafeChar(s[i]) {
      assert i in {4, 7, 10, 13, 16, 19, 22} || Calendar.IsDigit(s[i]);
    }
  }

  // ----- The formats are well-formed, and an entry's values fit -----

  lemma StrWell(text: string, rest: Format)
    requires Printable(text) && WellFormed(rest)
    ensures WellFormed(StrField(text, rest))
  {
  }

  lemma NumWell(text: string, rest: Format)
    requires Printable(text) && WellFormed(rest) && LitNext(rest) && !Calendar.IsDigit(rest.text[0])
    ensures WellFormed(NumField(text, rest))
  {
  }

  lemma LabelsWell()
    ensures WellFormed(LABELS)
  {
    assert WellFormed(CLOSE);
    StrWell(",\"firmwareVersion\":", CLOSE);
    StrWell(",\"state\":", LABELS.rest.rest);
  }

  lemma AudioWell()
    ensures WellFormed(AUDIO)
  {
    LabelsWell();
    NumWell(",\"channels\":", LABELS);
    NumWell(",\"bitDepth\":", AUDIO.rest.rest.rest.rest);
    NumWell(",\"sampleRate\":", AUDIO.rest.rest);
  }

  lemma ContentWell()
    ensures WellFormed(CONTENT)
  {
    AudioWell();
    StrWell(",\"sha256\":", AUDIO);
    NumWell(",\"sizeBytes\":", CONTENT.rest.rest.rest.rest);
    NumWell(",\"durationMs\":", CONTENT.rest.rest);
  }

  lemma EntryWell()
    ensures WellFormed(ENTRY)
  {
    ContentWell();
    StrWell(",\"startedAt\":", CONTENT);
    StrWell(",\"filename\":", ENTRY.rest.rest.rest.rest);
    StrWell("{\"recordingId\":", ENTRY.rest.rest);
  }

  lemma HeaderWell()
    ensures WellFormed(HEADER)
  {
    assert WellFormed(Lit(RECORDINGS, End));
    StrWell(",\"updatedAt\":", Lit(",", Lit(RECORDINGS, End)));
    StrWell(",\"deviceId\":", HEADER.rest.rest.rest.rest);
    NumWell("{\"schemaVersion\":", HEADER.rest.rest);
  }

  lemma StrFits(text: string, rest: Format, v: string, vals: Values)
    requires Safe(v) && Fits(rest, vals)
    ensures Fits(StrField(text, rest), Text(v, vals))
  {
  }

  lemma NumFits(text: string, rest: Format, n: nat, vals: Values)
    requires n < UINT32 && Fits(rest, vals)
    ensures Fits(NumField(text, rest), Number(n, vals))
  {
  }

  lemma LabelsFit(e: Entry)
    requires EntryOk(e)
    ensures Fits(LABELS, LabelValues(e))
  {
    assert Safe("finalized") && Safe("recovered");
    StrFits(",\"firmwareVersion\":", CLOSE, e.firmware, Nil);
    StrFits(",\"state\":", LABELS.rest.rest, e.state, Text(e.firmware, Nil));
  }

  lemma AudioFits(e: Entry)
    requires EntryOk(e)
    ensures Fits(AUDIO, AudioValues(e))
  {
    LabelsFit(e);
    NumFits(",\"channels\":", LABELS, CHANNELS, LabelValues(e));
    NumFits(",\"bitDepth\":", AUDIO.rest.rest.rest.rest, BITS, Number(CHANNELS, LabelValues(e)));
    NumFits(",\"sampleRate\":", AUDIO.rest.rest, SAMPLE_RATE, Number(BITS, Number(CHANNELS, LabelValues(e))));
  }

  lemma ContentFits(e: Entry)
    requires EntryOk(e)
    ensures Fits(CONTENT, ContentValues(e))
  {
    AudioFits(e);
    assert Safe(e.sha256);
    StrFits(",\"sha256\":", AUDIO, e.sha256, AudioValues(e));
    NumFits(",\"sizeBytes\":", CONTENT.rest.rest.rest.rest, e.sizeBytes, Text(e.sha256, AudioValues(e)));
    NumFits(",\"durationMs\":", CONTENT.rest.rest, e.durationMs, Number(e.sizeBytes, Text(e.sha256, AudioValues(e))));
  }

  lemma EntryFits(e: Entry)
    requires EntryOk(e)
    ensures Fits(ENTRY, EntryValues(e))
  {
    UuidSafe(e.id);
    StampSafe(e.startedAt);
    ContentFits(e);
    StrFits(",\"startedAt\":", CONTENT, e.startedAt, ContentValues(e));
    StrFits(",\"filename\":", ENTRY.rest.rest.rest.rest, e.filename, Text(e.startedAt, ContentValues(e)));
    StrFits("{\"recordingId\":", ENTRY.rest.rest, e.id, Text(e.filename, Text(e.startedAt, ContentValues(e))));
  }

  lemma HeaderFits(deviceId: string, updatedAt: string)
    requires Safe(deviceId) && Calendar.ValidStamp(updatedAt)
    ensures Fits(HEADER, HeaderValues(deviceId, updatedAt))
  {
    StampSafe(updatedAt);
    assert Fits(Lit(RECORDINGS, End), Nil);
    StrFits(",\"updatedAt\":", Lit(",", Lit(RECORDINGS, End)), updatedAt, Nil);
    StrFits(",\"deviceId\":", HEADER.rest.rest.rest.rest, deviceId, Text(updatedAt, Nil));
    NumFits("{\"schemaVersion\":", HEADER.rest.rest, SCHEMA_VERSION, Text(deviceId, Text(updatedAt, Nil)));
  }

  // ----- No key that starts with `c` in the literals of an entry's body -----

  lemma StrKeyless(text: string, rest: Format, c: char)
    requires LitKeyless(text, c) && LitNext(rest) && rest.text[0] in {',', '}'} && Keyless(rest, c)
    ensures Keyless(StrField(text, rest), c)
  {
  }

  lemma NumKeyless(text: string, rest: Format, c: char)
    requires LitKeyless(text, c) && Keyless(rest, c)
    ensures Keyless(NumField(text, rest), c)
  {
  }

  lemma LabelsKeyless()
    ensures Keyless(LABELS, 'r')
  {
    assert Keyless(CLOSE, 'r');
    StrKeyless(",\"firmwareVersion\":", CLOSE, 'r');
    StrKeyless(",\"state\":", LABELS.rest.rest, 'r');
  }

  lemma AudioKeyless()
    ensures Keyless(AUDIO, 'r')
  {
    LabelsKeyless();
    NumKeyless(",\"channels\":", LABELS, 'r');
    NumKeyless(",\"bitDepth\":", AUDIO.rest.rest.rest.rest, 'r');
    NumKeyless(",\"sampleRate\":", AUDIO.rest.rest, 'r');
  }

  lemma ContentKeyless()
    ensures Keyless(CONTENT, 'r')
  {
    AudioKeyless();
    StrKeyless(",\"sha256\":", AUDIO, 'r');
    NumKeyless(",\"sizeBytes\":", CONTENT.rest.rest.rest.rest, 'r');
    NumKeyless(",\"durationMs\":", CONTENT.rest.rest, 'r');
  }

  /** After the first literal, an entry's text holds no recordingId key. */
  lemma BodyKeyless()
    ensures Keyless(ENTRY.rest, 'r')
  {
    ContentKeyless();
    StrKeyless(",\"startedAt\":", CONTENT, 'r');
    StrKeyless(",\"filename\":", ENTRY.rest.rest.rest.rest, 'r');
  }
}
