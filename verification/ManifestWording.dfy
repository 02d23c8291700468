/** The canonical text of an entry and of a manifest, word for word (device_manifest_build_entry and
    device_manifest_build_empty). */
module ManifestWording {
  import opened Wrappers
  import opened Audio
  import opened Bytes
  import opened ManifestText
  import opened TextFormat
  import opened ManifestFormat
  import opened ManifestCodec
  import opened Joining
  import opened ManifestEntries
  import opened ManifestSnapshot
  import opened ManifestUpsert
  import Calendar

  /** The duration is the audio's length in milliseconds, at 32000 bytes a second. */
  lemma Milliseconds(payload: nat)
    ensures DurationMs(payload) == payload * 1000 / BYTE_RATE
  {
    var q, r := payload / 32, payload % 32;
    assert payload * 1000 == BYTE_RATE * q + 1000 * r;
  }

  // ----- The end of an entry: the audio format, the state and the firmware -----

  function Ending(state: string, firmware: string): string {
    "\",\"sampleRate\":16000,\"bitDepth\":16,\"channels\":1,\"state\":\"" + state + "\",\"firmwareVersion\":\"" + firmware + "\"}"
  }

  lemma AudioNumbers()
    ensures Dec(SAMPLE_RATE) == "16000" && Dec(BITS) == "16" && Dec(CHANNELS) == "1"
  {
    assert Dec(1) == "1";
    assert Dec(16) == "16";
    assert Dec(160) == "160";
    assert Dec(1600) == "1600";
  }

  lemma LabelsWritten(e: Entry)
    requires EntryOk(e)
    ensures Fits(LABELS, LabelValues(e))
    ensures Show(LABELS, LabelValues(e)) == ",\"state\":" + Quoted(e.state) + (",\"firmwareVersion\":" + Quoted(e.firmware) + "}")
  {
    LabelsFit(e);
    assert Show(CLOSE, Nil) == "}";
    ShowStr(",\"firmwareVersion\":", CLOSE, e.firmware, Nil);
    ShowStr(",\"state\":", LABELS.rest.rest, e.state, Text(e.firmware, Nil));
  }

  lemma AudioWritten(e: Entry)
    requires EntryOk(e)
    ensures Fits(AUDIO, AudioValues(e))
    ensures "\"" + Show(AUDIO, AudioValues(e)) == Ending(e.state, e.firmware)
  {
    LabelsWritten(e);
    AudioFits(e);
    AudioNumbers();
    var labels := Show(LABELS, LabelValues(e));
    var channels := Number(CHANNELS, LabelValues(e));
    ShowNum(",\"channels\":", LABELS, CHANNELS, LabelValues(e));
    ShowNum(",\"bitDepth\":", AUDIO.rest.rest.rest.rest, BITS, channels);
    ShowNum(",\"sampleRate\":", AUDIO.rest.rest, SAMPLE_RATE, Number(BITS, channels));
    JoinEnding(e.state, e.firmware);
  }

  lemma JoinEnding(state: string, firmware: string)
    ensures var labels := ",\"state\":" + Quoted(state) + (",\"firmwareVersion\":" + Quoted(firmware) + "}");
      "\"" + (",\"sampleRate\":" + "16000" + (",\"bitDepth\":" + "16" + (",\"channels\":" + "1" + labels))) == Ending(state, firmware)
  {
    var q := "\"";
    var a, b, c := ",\"sampleRate\":" + "16000", ",\"bitDepth\":" + "16", ",\"channels\":" + "1";
    Flat(q, a, b, c, ",\"state\":", state, ",\"firmwareVersion\":", firmware, "}");
    assert q + a == "\",\"sampleRate\":16000";
    assert q + a + b == "\",\"sampleRate\":16000,\"bitDepth\":16";
    assert q + a + b + c == "\",\"sampleRate\":16000,\"bitDepth\":16,\"channels\":1";
    assert q + a + b + c + ",\"state\":" + q == "\",\"sampleRate\":16000,\"bitDepth\":16,\"channels\":1,\"state\":\"";
    assert q + ",\"firmwareVersion\":" + q == "\",\"firmwareVersion\":\"";
    assert q + "}" == "\"}";
  }

  lemma Flat(q: string, a: string, b: string, c: string, l: string, x: string, f: string, y: string, z: string)
    ensures q + (a + (b + (c + (l + (q + x + q) + (f + (q + y + q) + z))))) == (q + a + b + c + l + q) + x + (q + f + q) + y + (q + z)
  {
    var t := q + x + q + (f + (q + y + q) + z);
    assert l + (q + x + q) + (f + (q + y + q) + z) == l + t;
    assert q + (a + (b + (c + (l + t)))) == q + a + b + c + l + t;
    var w := q + f + q + y + (q + z);
    assert t == q + x + w;
    assert q + a + b + c + l + (q + x + w) == (q + a + b + c + l + q) + x + w;
  }

  // ----- The whole entry -----

  function Beginning(e: Entry): string {
    "{\"recordingId\":\"" + e.id + "\",\"filename\":\"" + e.filename + "\",\"startedAt\":\"" + e.startedAt + "\",\"durationMs\":"
  }

  lemma ContentWritten(e: Entry)
    requires EntryOk(e)
    ensures Fits(CONTENT, ContentValues(e)) && Fits(AUDIO, AudioValues(e))
    ensures Show(CONTENT, ContentValues(e))
      == ",\"durationMs\":" + Dec(e.durationMs) + (",\"sizeBytes\":" + Dec(e.sizeBytes) + (",\"sha256\":" + Quoted(e.sha256) + Show(AUDIO, AudioValues(e))))
  {
    AudioFits(e);
    ContentFits(e);
    var hash := Text(e.sha256, AudioValues(e));
    ShowStr(",\"sha256\":", AUDIO, e.sha256, AudioValues(e));
    ShowNum(",\"sizeBytes\":", CONTENT.rest.rest.rest.rest, e.sizeBytes, hash);
    ShowNum(",\"durationMs\":", CONTENT.rest.rest, e.durationMs, Number(e.sizeBytes, hash));
  }

  lemma EntryShown(e: Entry)
    requires EntryOk(e)
    ensures Fits(CONTENT, ContentValues(e))
    ensures EntryText(e)
      == "{\"recordingId\":" + Quoted(e.id) + (",\"filename\":" + Quoted(e.filename) + (",\"startedAt\":" + Quoted(e.startedAt) + Show(CONTENT, ContentValues(e))))
  {
    UuidSafe(e.id);
    StampSafe(e.startedAt);
    ContentFits(e);
    var start := Text(e.startedAt, ContentValues(e));
    ShowStr(",\"startedAt\":", CONTENT, e.startedAt, ContentValues(e));
    ShowStr(",\"filename\":", ENTRY.rest.rest.rest.rest, e.filename, start);
    ShowStr("{\"recordingId\":", ENTRY.rest.rest, e.id, Text(e.filename, start));
  }

  lemma FlatOne(q: string, c: string, z: string, d: string, rest: string)
    ensures q + (c + (q + z + q + (d + rest))) == (q + c + q) + z + (q + d) + rest
  {
  }

  lemma FlatTwo(q: string, a: string, x: string, b: string, rest: string)
    ensures a + (q + x + q) + (b + rest) == (a + q) + x + (q + (b + rest))
  {
  }

  lemma FlatStart(q: string, a: string, x: string, b: string, y: string, c: string, z: string, d: string, rest: string)
    ensures a + (q + x + q) + (b + (q + y + q) + (c + (q + z + q) + (d + rest)))
         == (a + q) + x + (q + b + q) + y + (q + c + q) + z + (q + d) + rest
  {
    FlatOne(q, c, z, d, rest);
    var u := (q + c + q) + z + (q + d) + rest;
    FlatTwo(q, b, y, c, q + z + q + (d + rest));
    FlatTwo(q, a, x, b, q + y + q + (c + (q + z + q + (d + rest))));
    assert q + (b + (q + y + q + (c + (q + z + q + (d + rest))))) == (q + b + q) + y + u;
  }

  lemma FlatContent(q: string, d: string, n: string, b: string, m: string, c: string, sha: string, rest: string)
    ensures d + n + (b + m + (c + (q + sha + q) + rest)) == d + (n + b + m + (c + q) + sha + (q + rest))
  {
    assert c + (q + sha + q) + rest == (c + q) + sha + (q + rest);
  }

  lemma JoinStart(e: Entry, rest: string)
    ensures "{\"recordingId\":" + Quoted(e.id) + (",\"filename\":" + Quoted(e.filename) + (",\"startedAt\":" + Quoted(e.startedAt) + (",\"durationMs\":" + rest)))
      == Beginning(e) + rest
  {
    var q := "\"";
    FlatStart(q, "{\"recordingId\":", e.id, ",\"filename\":", e.filename, ",\"startedAt\":", e.startedAt, ",\"durationMs\":", rest);
    assert "{\"recordingId\":" + q == "{\"recordingId\":\"";
    assert q + ",\"filename\":" + q == "\",\"filename\":\"";
    assert q + ",\"startedAt\":" + q == "\",\"startedAt\":\"";
    assert q + ",\"durationMs\":" == "\",\"durationMs\":";
  }

  /** The text of an entry. */
  lemma EntryWritten(e: Entry)
    requires EntryOk(e)
    ensures EntryText(e) == Beginning(e) + (Dec(e.durationMs) + ",\"sizeBytes\":" + Dec(e.sizeBytes) + ",\"sha256\":\"" + e.sha256 + Ending(e.state, e.firmware))
  {
    hide EntryOk, Dec, Fits, Show, EntryText, Beginning, Ending;
    EntryShown(e);
    ContentWritten(e);
    AudioWritten(e);
    var q := "\"";
    FlatContent(q, ",\"durationMs\":", Dec(e.durationMs), ",\"sizeBytes\":", Dec(e.sizeBytes), ",\"sha256\":", e.sha256, Show(AUDIO, AudioValues(e)));
    assert ",\"sha256\":" + q == ",\"sha256\":\"";
    JoinStart(e, Dec(e.durationMs) + ",\"sizeBytes\":" + Dec(e.sizeBytes) + ",\"sha256\":\"" + e.sha256 + Ending(e.state, e.firmware));
  }

  // ----- Its length -----

  function Ten(k: nat): nat {
    if k == 0 then 1 else 10 * Ten(k - 1)
  }

  lemma {:induction false} DecLength(n: nat, k: nat)
    requires 0 < k && n < Ten(k)
    ensures |Dec(n)| <= k
  {
    if n >= 10 {
      DecLength(n / 10, k - 1);
    }
  }

  /** An entry always fits the buffer that it is built in. */
  lemma EntryShort(e: Entry)
    requires EntryOk(e)
    ensures |EntryText(e)| <= ENTRY_MAX
  {
    EntryWritten(e);
    assert Ten(10) > UINT32;
    DecLength(e.durationMs, 10);
    DecLength(e.sizeBytes, 10);
    EntrySizes(e);
    hide EntryOk, EntryText, Dec;
  }

  lemma EntrySizes(e: Entry)
    requires EntryOk(e)
    ensures |e.id| == 36 && |e.filename| <= 180 && |e.startedAt| == 25 && |e.sha256| == 64 && |e.state| == 9 && |e.firmware| <= 32
  {
  }
}
