/** The boot scan that indexes every finalized recording, and why its counts prove the index
    complete (device_manifest_sync_wav_dir). */
module ManifestIndex {
  import opened Audio
  import opened Wrappers
  import opened ManifestText
  import opened TextFormat
  import opened ManifestFormat
  import opened ManifestCodec
  import opened Joining
  import opened ManifestEntries
  import opened ManifestSnapshot
  import opened ManifestReader
  import opened ManifestHeader
  import opened ManifestExtends
  import opened ManifestUpsert
  import opened ManifestStore
  import opened Bytes
  import Calendar
  import Sha256
  import Sha256Hex
  import WavFormat
  import opened ManifestWording

  // ----- Counting the entries of a manifest -----

  lemma FirstKeys(doc: string, id: string, s: Snapshot, k: nat)
    requires Canonical(doc, id, s) && k < |s.entries|
    ensures AllOk(s.entries) && KeyAt(doc, Place(ArrayAt(|id|), s.entries, k) + 1, ID_KEY, true)
  {
    hide EntryOk, EntryText, EntryIs, Canonical, StartsAt, Texts;
    Located(doc, id, s);
    var p := ArrayAt(|id|);
    Stands(doc, p, s.entries, |s.entries|, k);
    NeedleStands(doc, Place(p, s.entries, k), s.entries[k], Stop(p, s.entries, k + 1));
    NeedleKey(doc, Place(p, s.entries, k) + 1, s.entries[k].id);
  }

  lemma OnlyKeys(doc: string, id: string, s: Snapshot, h: nat) returns (k: nat)
    requires Canonical(doc, id, s) && KeyAt(doc, h, ID_KEY, true)
    ensures k < |s.entries| && AllOk(s.entries) && h == Place(ArrayAt(|id|), s.entries, k) + 1
  {
    hide EntryOk, EntryText, EntryIs, Canonical, Texts;
    Located(doc, id, s);
    var p := ArrayAt(|id|);
    if h < p {
      KeyNotInHeader(doc, id, s, h);
    }
    assert |Quoted(ID_KEY)| == 13;
    k := KeyInEntries(doc, p, s.entries, |s.entries|, h);
  }

  lemma KeyNotInHeader(doc: string, id: string, s: Snapshot, h: nat)
    requires Canonical(doc, id, s) && h < ArrayAt(|id|)
    ensures !KeyAt(doc, h, ID_KEY, true)
  {
    hide EntryOk, EntryText, Canonical, HeaderIs;
    ArraySlice(doc, id, s);
    IdKeyName();
    if h < ArrayKey(|id|) {
      NoEarlierArrayKey(doc, id, s.updatedAt, ArrayAt(|id|), h, ID_KEY, true);
    } else {
      NotInArrayKey(doc, ArrayKey(|id|), h);
    }
  }

  lemma PlacesOrdered(p: nat, es: seq<Entry>, j: nat, n: nat)
    requires AllOk(es) && j < n < |es|
    ensures Place(p, es, j) + 16 < Place(p, es, n)
  {
    hide EntryOk, EntryText;
    var ts := Texts(es);
    JoinedGrows(ts, j + 1, n);
    EntryLong(es[j]);
    assert Joined(ts, j + 1) == Joined(ts, j) + (Comma(j) + ts[j]);
  }

  lemma NextKey(doc: string, id: string, s: Snapshot, k: nat, from: nat, at: Option<nat>)
    requires Canonical(doc, id, s) && k <= |s.entries| && AllOk(s.entries)
    requires from == (if k == 0 then 0 else Place(ArrayAt(|id|), s.entries, k - 1) + 15)
    requires at.Some? ==> from <= at.value && KeyAt(doc, at.value, ID_KEY, true)
    requires forall h: nat :: from <= h < (if at.Some? then at.value else |doc|) ==> !KeyAt(doc, h, ID_KEY, true)
    ensures at.Some? <==> k < |s.entries|
    ensures at.Some? ==> at.value == Place(ArrayAt(|id|), s.entries, k) + 1
  {
    hide EntryOk, EntryText, EntryIs, Canonical, Texts, KeyAt, Place, Listed, AllOk;
    var p, es := ArrayAt(|id|), s.entries;
    if k < |es| {
      FirstKeys(doc, id, s, k);
      Located(doc, id, s);
      PlaceInside(doc, p, es, k);
      if k > 0 {
        PlacesOrdered(p, es, k - 1, k);
      }
    }
    if at.Some? {
      var j := OnlyKeys(doc, id, s, at.value);
      if j < k {
        if j < k - 1 {
          PlacesOrdered(p, es, j, k - 1);
        }
      } else if k < j {
        PlacesOrdered(p, es, k, j);
      }
    }
  }

  lemma PlaceInside(doc: string, p: nat, es: seq<Entry>, k: nat)
    requires Listed(doc, p, es, |es|) && k < |es|
    ensures Place(p, es, k) + 1 < |doc|
  {
    hide EntryOk, EntryText, EntryIs, StartsAt, Texts;
    Stands(doc, p, es, |es|, k);
    Brace(doc, Place(p, es, k), es[k], Stop(p, es, k + 1));
  }

  lemma KeyText(doc: string, h: nat)
    ensures StartsAt(doc, h, "\"recordingId\":") <==> KeyAt(doc, h, ID_KEY, true)
  {
    StartsAtConcat(doc, h, Quoted(ID_KEY), ":");
    assert Quoted(ID_KEY) + ":" == "\"recordingId\":";
  }

  /** manifest_recording_count: the keys found in an accepted manifest are its entries. */
  method CountRecordings(doc: string, id: string) returns (count: Option<nat>)
    ensures count.None? ==> forall s :: !Canonical(doc, id, s)
    ensures forall s :: Canonical(doc, id, s) ==> count == Some(|s.entries|)
  {
    hide Canonical, EntryOk, EntryText, KeyAt;
    var ok, s := SnapshotValid(doc, id);
    if !ok {
      return None;
    }
    OnlyMeaning(doc, id, s);
    CanonicalOk(doc, id, s);
    var offset, n := 0, 0;
    var at := Find(doc, offset, "\"recordingId\":");
    forall h: nat ensures StartsAt(doc, h, "\"recordingId\":") <==> KeyAt(doc, h, ID_KEY, true) {
      KeyText(doc, h);
    }
    NextKey(doc, id, s, n, offset, at);
    while at.Some?
      invariant n <= |s.entries| && (at.Some? <==> n < |s.entries|)
      invariant at.Some? ==> at.value == Place(ArrayAt(|id|), s.entries, n) + 1 && StartsAt(doc, at.value, "\"recordingId\":")
      decreases |s.entries| - n
    {
      n := n + 1;
      offset := at.value + |"\"recordingId\":"|;
      at := Find(doc, offset, "\"recordingId\":");
      NextKey(doc, id, s, n, offset, at);
    }
    count := Some(n);
  }

  // ----- Which files are recordings -----

  const FIRMWARE_VERSION := "0.1.0"
  const MAX_RELATIVE: nat := 192

  /** A file of a date directory: its bytes, and whether they can be read. */
  datatype File = File(name: string, bytes: seq<Byte>, readable: bool)

  /** A name in the recordings directory; `files` is its listing, if it can be read to the end. */
  datatype Top = Top(name: string, statOk: bool, isDir: bool, files: Option<seq<File>>)

  predicate DateShape(name: string) {
    |name| == 10 && name[4] == '-' && name[7] == '-'
    && forall i :: 0 <= i < 10 && i != 4 && i != 7 ==> Calendar.IsDigit(name[i])
  }

  predicate ValidDateDir(name: string) {
    DateShape(name)
    && Calendar.ValidDate(Calendar.TwoDigits(name, 0) * 100 + Calendar.TwoDigits(name, 2), Calendar.TwoDigits(name, 5), Calendar.TwoDigits(name, 8))
  }

  predicate WavName(name: string) {
    5 <= |name| && StartsAt(name, |name| - 4, ".wav")
  }

  /** strstr for the suffix. */
  function FirstWav(s: string, i: nat): (at: Option<nat>)
    decreases |s| - i
  {
    if i + 4 > |s| then None else if StartsAt(s, i, ".wav") then Some(i) else FirstWav(s, i + 1)
  }

  /** device_manifest_extract_recording_id: what stands between `HHMMSS_` and the first `.wav`. */
  function ExtractId(name: string): Option<string> {
    if |name| < 12 || !(forall i :: 0 <= i < 6 ==> Calendar.IsDigit(name[i])) || name[6] != '_' then None
    else
      var dot := FirstWav(name, 7);
      if dot.None? || dot.value <= 7 || dot.value > |name| || dot.value - 7 > 64 then None
      else
        var id := name[7..dot.value];
        if forall i :: 0 <= i < |id| ==> id[i] > ' ' && id[i] !in {'/', '\\', '"', '\''} then Some(id) else None
  }

  /** The start time in the directory and the file name. */
  function StampOf(dir: string, name: string): string
    requires |name| >= 6
  {
    dir + "T" + name[0..2] + ":" + name[2..4] + ":" + name[4..6] + "+00:00"
  }

  /** A finalized recording: its directory is a date, its name starts with a time and holds a UUID. */
  predicate IsRecording(dir: string, name: string) {
    && WavName(name) && ValidDateDir(dir)
    && ExtractId(name).Some? && ValidUuid(ExtractId(name).value)
    && Calendar.ValidStamp(StampOf(dir, name))
  }

  /** The parts of a recording's name: six digits, an id, and what follows the first `.wav`. */
  predicate Named(name: string, time: string, id: string, rest: string) {
    && name == time + "_" + id + ".wav" + rest && |time| == 6 && (forall i :: 0 <= i < 6 ==> Calendar.IsDigit(time[i])) && ValidUuid(id)
  }

  lemma NamedId(name: string, time: string, id: string, rest: string)
    requires Named(name, time, id, rest)
    ensures ExtractId(name) == Some(id) && |name| >= 47 && name[..6] == time
  {
    hide ValidUuid;
    assert |id| == 36 by { UuidPlain(id); }
    assert name[7..43] == id && name[43..47] == ".wav";
    assert name[..6] == time && forall i :: 0 <= i < 6 ==> name[i] == time[i];
    forall i | 7 <= i < 43 ensures name[i] != '.' {
      assert name[i] == id[i - 7];
      UuidPlain(id);
    }
    FirstWavAt(name, 7, 43);
    UuidPlain(id);
  }

  lemma IdNamed(name: string) returns (time: string, id: string, rest: string)
    requires ExtractId(name).Some? && ValidUuid(ExtractId(name).value)
    ensures Named(name, time, id, rest)
  {
    hide ValidUuid;
    id := ExtractId(name).value;
    UuidPlain(id);
    var dot := FirstWav(name, 7).value;
    FirstWavIs(name, 7);
    time, rest := name[..6], name[dot + 4..];
    assert name == name[..6] + [name[6]] + name[7..dot] + name[dot..dot + 4] + name[dot + 4..];
  }

  lemma {:induction false} FirstWavIs(s: string, i: nat)
    requires FirstWav(s, i).Some?
    ensures var at := FirstWav(s, i).value; i <= at && at + 4 <= |s| && s[at..at + 4] == ".wav"
    decreases |s| - i
  {
    if !StartsAt(s, i, ".wav") {
      FirstWavIs(s, i + 1);
    }
  }

  ghost predicate NamedSometime(name: string) {
    exists time, id, rest :: Named(name, time, id, rest)
  }

  /** A file is a recording exactly if its directory is a date, its name starts with a time of day and an
      id, and it ends in `.wav`. */
  lemma RecordingExactly(dir: string, name: string)
    ensures IsRecording(dir, name) <==>
      ValidDateDir(dir) && NamedSometime(name) && name[|name| - 4..] == ".wav"
      && Calendar.TwoDigits(name, 0) <= 23 && Calendar.TwoDigits(name, 2) <= 59 && Calendar.TwoDigits(name, 4) <= 60
  {
    hide ExtractId, StampOf, ValidUuid, ValidDateDir, Calendar.ValidStamp, Calendar.UtcSeconds, Named;
    if IsRecording(dir, name) {
      var time, id, rest := IdNamed(name);
      NamedTime(name, time, id, rest);
      StampTimes(dir, name);
    }
    if ValidDateDir(dir) && NamedSometime(name) {
      var time, id, rest :| Named(name, time, id, rest);
      NamedTime(name, time, id, rest);
      if Calendar.TwoDigits(name, 0) <= 23 && Calendar.TwoDigits(name, 2) <= 59 && Calendar.TwoDigits(name, 4) <= 60 {
        StampStarts(dir, name);
      }
    }
  }

  lemma NamedTime(name: string, time: string, id: string, rest: string)
    requires Named(name, time, id, rest)
    ensures ExtractId(name) == Some(id) && ValidUuid(id) && |name| >= 47 && forall i :: 0 <= i < 6 ==> Calendar.IsDigit(name[i])
  {
    hide ValidUuid, ExtractId;
    NamedId(name, time, id, rest);
    assert forall i :: 0 <= i < 6 ==> name[i] == name[..6][i] == time[i];
  }

  lemma StampTimes(dir: string, name: string)
    requires ValidDateDir(dir) && |name| >= 6 && Calendar.ValidStamp(StampOf(dir, name))
    ensures Calendar.TwoDigits(name, 0) <= 23 && Calendar.TwoDigits(name, 2) <= 59 && Calendar.TwoDigits(name, 4) <= 60
  {
    hide Calendar.DaysInMonth;
    var s := StampOf(dir, name);
    assert s[11] == name[0] && s[12] == name[1] && s[14] == name[2] && s[15] == name[3] && s[17] == name[4] && s[18] == name[5];
  }

  lemma UuidPlain(id: string)
    requires ValidUuid(id)
    ensures |id| == 36 && forall i :: 0 <= i < |id| ==> id[i] > ' ' && id[i] !in {'/', '\\', '"', '\'', '.'}
  {
    forall i | 0 <= i < |id| ensures id[i] > ' ' && id[i] !in {'/', '\\', '"', '\'', '.'} {
      assert id[i] == '-' || IsHex(id[i]);
    }
  }

  lemma {:induction false} FirstWavAt(s: string, i: nat, at: nat)
    requires i <= at && at + 4 <= |s| && StartsAt(s, at, ".wav") && forall k :: i <= k < at ==> s[k] != '.'
    ensures FirstWav(s, i) == Some(at)
    decreases at - i
  {
    if i < at {
      assert s[i..i + 4][0] == s[i];
      FirstWavAt(s, i + 1, at);
    }
  }

  /** The start of a recording is the date of its directory and the `HHMMSS` of its name, in UTC. */
  lemma StampStarts(dir: string, name: string)
    requires ValidDateDir(dir) && |name| >= 6 && forall i :: 0 <= i < 6 ==> Calendar.IsDigit(name[i])
    requires Calendar.TwoDigits(name, 0) <= 23 && Calendar.TwoDigits(name, 2) <= 59 && Calendar.TwoDigits(name, 4) <= 60
    ensures Calendar.ValidStamp(StampOf(dir, name))
    ensures Calendar.UtcSeconds(StampOf(dir, name))
         == Calendar.DayNumber(Calendar.TwoDigits(dir, 0) * 100 + Calendar.TwoDigits(dir, 2), Calendar.TwoDigits(dir, 5), Calendar.TwoDigits(dir, 8)) * 86400
            + Calendar.TwoDigits(name, 0) * 3600 + Calendar.TwoDigits(name, 2) * 60 + Calendar.TwoDigits(name, 4)
  {
    hide Calendar.DayNumber, Calendar.DaysInMonth;
    var s := StampOf(dir, name);
    assert forall i :: 0 <= i < 10 ==> s[i] == dir[i];
    assert s[11] == name[0] && s[12] == name[1] && s[14] == name[2] && s[15] == name[3] && s[17] == name[4] && s[18] == name[5];
  }

  function Relative(dir: string, name: string): string {
    "recordings/" + (dir + ("/" + name))
  }

  /** The entry for a recording with this hash, as the scan builds it. */
  function EntryWith(dir: string, f: File, state: string, sha: string): Entry
    requires IsRecording(dir, f.name)
  {
    var payload := if |f.bytes| < HEADER_SIZE then 0 else |f.bytes| - HEADER_SIZE;
    Entry(ExtractId(f.name).value, Relative(dir, f.name), StampOf(dir, f.name), DurationMs(payload - payload % SAMPLE_BYTES),
          |f.bytes|, sha, state, FIRMWARE_VERSION)
  }

  /** The hash of a file as the manifest writes it. */
  function ShaText(bytes: seq<Byte>): string {
    Sha256Hex.Hex(Sha256.Sha256Of(bytes))
  }

  /** The entry that describes a recording: its name, its time, and the length and hash of its bytes. */
  function EntryFor(dir: string, f: File, state: string): Entry
    requires IsRecording(dir, f.name)
  {
    EntryWith(dir, f, state, ShaText(f.bytes))
  }

  /** The entries for the recordings among the first `n` files of a directory. */
  function Wanted(dir: string, files: seq<File>, state: string, n: nat): seq<Entry>
    requires n <= |files|
  {
    if n == 0 then []
    else
      Wanted(dir, files, state, n - 1) + (if IsRecording(dir, files[n - 1].name) then [EntryFor(dir, files[n - 1], state)] else [])
  }

  /** The entries for the recordings below the first `n` names of the recordings directory. */
  function AllWanted(tops: seq<Top>, state: string, n: nat): seq<Entry>
    requires n <= |tops|
  {
    if n == 0 then []
    else
      var t := tops[n - 1];
      AllWanted(tops, state, n - 1)
      + (if t.isDir && ValidDateDir(t.name) && t.files.Some? then Wanted(t.name, t.files.value, state, |t.files.value|) else [])
  }

  predicate NamesDiffer(tops: seq<Top>) {
    && (forall i, j :: 0 <= i < j < |tops| ==> tops[i].name != tops[j].name)
    && (forall i :: 0 <= i < |tops| && tops[i].files.Some? ==> FilesDiffer(tops[i].files.value))
  }

  predicate FilesDiffer(files: seq<File>) {
    forall i, j :: 0 <= i < j < |files| ==> files[i].name != files[j].name
  }

  predicate FilenamesDiffer(es: seq<Entry>) {
    forall i, j :: 0 <= i < j < |es| ==> es[i].filename != es[j].filename
  }

  /** The stored entry says of this file: its id and time, its place, its length, and the hash of its bytes. */
  ghost predicate Stores(x: Entry, dir: string, f: File) {
    && IsRecording(dir, f.name) && x.id == ExtractId(f.name).value && x.filename == "recordings/" + dir + "/" + f.name
    && x.sizeBytes == |f.bytes| && x.sha256 == ShaText(f.bytes) && TwoSecondsApart(x.startedAt, StampOf(dir, f.name))
  }

  lemma DescribedStores(x: Entry, dir: string, f: File, state: string)
    requires IsRecording(dir, f.name) && Describes(x, EntryFor(dir, f, state))
    ensures Stores(x, dir, f)
  {
    hide IsRecording, ShaText, StampOf, Calendar.UtcSeconds;
    SameFields(x, EntryFor(dir, f, state));
    assert Relative(dir, f.name) == "recordings/" + dir + "/" + f.name;
  }

  /** A file below the recordings directory that is a recording. */
  predicate RecordingAt(tops: seq<Top>, i: nat, j: nat) {
    && i < |tops| && tops[i].isDir && ValidDateDir(tops[i].name) && tops[i].files.Some? && j < |tops[i].files.value|
    && IsRecording(tops[i].name, tops[i].files.value[j].name)
  }

  ghost predicate StoredAt(es: seq<Entry>, tops: seq<Top>, i: nat, j: nat)
    requires RecordingAt(tops, i, j)
  {
    exists x :: x in es && Stores(x, tops[i].name, tops[i].files.value[j])
  }

  ghost predicate StoresOne(x: Entry, tops: seq<Top>) {
    exists i: nat, j: nat :: RecordingAt(tops, i, j) && Stores(x, tops[i].name, tops[i].files.value[j])
  }

  /** Every recording is stored, and every entry stores a recording. */
  ghost predicate Lists(es: seq<Entry>, tops: seq<Top>) {
    && (forall i: nat, j: nat :: RecordingAt(tops, i, j) ==> StoredAt(es, tops, i, j))
    && (forall x :: x in es ==> StoresOne(x, tops))
  }

  lemma {:induction false} WantedHas(dir: string, files: seq<File>, state: string, n: nat, j: nat)
    requires j < n <= |files| && IsRecording(dir, files[j].name)
    ensures EntryFor(dir, files[j], state) in Wanted(dir, files, state, n)
  {
    hide IsRecording, EntryFor;
    if j < n - 1 {
      WantedHas(dir, files, state, n - 1, j);
    }
  }

  lemma {:induction false} AllWantedHas(tops: seq<Top>, state: string, n: nat, i: nat, j: nat)
    requires i < n <= |tops| && RecordingAt(tops, i, j)
    ensures EntryFor(tops[i].name, tops[i].files.value[j], state) in AllWanted(tops, state, n)
  {
    hide IsRecording, EntryFor, ValidDateDir, Wanted;
    if i < n - 1 {
      AllWantedHas(tops, state, n - 1, i, j);
    } else {
      WantedHas(tops[i].name, tops[i].files.value, state, |tops[i].files.value|, j);
    }
  }

  lemma CompleteLists(es: seq<Entry>, tops: seq<Top>, state: string)
    requires Complete(es, AllWanted(tops, state, |tops|))
    ensures Lists(es, tops)
  {
    hide IsRecording, EntryFor, ValidDateDir, Wanted, AllWanted, Describes, Stores;
    var want := AllWanted(tops, state, |tops|);
    forall i: nat, j: nat | RecordingAt(tops, i, j) ensures StoredAt(es, tops, i, j) {
      AllWantedHas(tops, state, |tops|, i, j);
      var e := EntryFor(tops[i].name, tops[i].files.value[j], state);
      var k :| 0 <= k < |want| && want[k] == e;
      assert Covers(es, want[k]);
      var a :| 0 <= a < |es| && Describes(es[a], e);
      DescribedStores(es[a], tops[i].name, tops[i].files.value[j], state);
    }
    forall x | x in es ensures StoresOne(x, tops) {
      var a :| 0 <= a < |es| && es[a] == x;
      assert CoveredBy(es[a], want);
      var k :| 0 <= k < |want| && Describes(x, want[k]);
      var i, j := AllWantedFrom(tops, state, |tops|, k);
      DescribedStores(x, tops[i].name, tops[i].files.value[j], state);
    }
  }

  lemma {:induction false} WantedFrom(dir: string, files: seq<File>, state: string, n: nat, k: nat) returns (i: nat)
    requires n <= |files| && k < |Wanted(dir, files, state, n)|
    ensures i < n && IsRecording(dir, files[i].name) && Wanted(dir, files, state, n)[k] == EntryFor(dir, files[i], state)
  {
    hide ShaText, IsRecording;
    var front := Wanted(dir, files, state, n - 1);
    if k < |front| {
      i := WantedFrom(dir, files, state, n - 1, k);
    } else {
      i := n - 1;
    }
  }

  lemma {:induction false} WantedDiffer(dir: string, files: seq<File>, state: string, n: nat)
    requires n <= |files| && FilesDiffer(files)
    ensures FilenamesDiffer(Wanted(dir, files, state, n))
  {
    hide ShaText, IsRecording;
    if n > 0 {
      WantedDiffer(dir, files, state, n - 1);
      var front := Wanted(dir, files, state, n - 1);
      forall k | 0 <= k < |front| ensures front[k].filename != Relative(dir, files[n - 1].name) {
        var i := WantedFrom(dir, files, state, n - 1, k);
        if front[k].filename == Relative(dir, files[n - 1].name) {
          RelativeUnique(dir, files[i].name, dir, files[n - 1].name);
        }
      }
    }
  }

  lemma RelativeUnique(dir: string, name: string, dir': string, name': string)
    requires |dir| == |dir'| && Relative(dir, name) == Relative(dir', name')
    ensures dir == dir' && name == name'
  {
    var r, r' := Relative(dir, name), Relative(dir', name');
    assert dir == r[11..11 + |dir|] && dir' == r'[11..11 + |dir'|];
    assert name == r[12 + |dir|..] && name' == r'[12 + |dir'|..];
  }

  lemma {:induction false} AllWantedFrom(tops: seq<Top>, state: string, n: nat, k: nat) returns (i: nat, j: nat)
    requires n <= |tops| && k < |AllWanted(tops, state, n)|
    ensures i < n && RecordingAt(tops, i, j) && AllWanted(tops, state, n)[k] == EntryFor(tops[i].name, tops[i].files.value[j], state)
  {
    hide EntryFor, IsRecording, ValidDateDir;
    var front := AllWanted(tops, state, n - 1);
    if k < |front| {
      i, j := AllWantedFrom(tops, state, n - 1, k);
    } else {
      i := n - 1;
      j := WantedFrom(tops[i].name, tops[i].files.value, state, |tops[i].files.value|, k - |front|);
    }
  }

  /** The files of a listing are told apart by their relative names. */
  lemma {:induction false} AllWantedDiffer(tops: seq<Top>, state: string, n: nat)
    requires n <= |tops| && NamesDiffer(tops)
    ensures FilenamesDiffer(AllWanted(tops, state, n))
  {
    hide ShaText, IsRecording;
    if n > 0 {
      AllWantedDiffer(tops, state, n - 1);
      var t, front := tops[n - 1], AllWanted(tops, state, n - 1);
      if t.isDir && ValidDateDir(t.name) && t.files.Some? {
        var mine := Wanted(t.name, t.files.value, state, |t.files.value|);
        WantedDiffer(t.name, t.files.value, state, |t.files.value|);
        forall a, b | 0 <= a < |front| && 0 <= b < |mine| ensures front[a].filename != mine[b].filename {
          var i, h := AllWantedFrom(tops, state, n - 1, a);
          var j := WantedFrom(t.name, t.files.value, state, |t.files.value|, b);
          if front[a].filename == mine[b].filename {
            RelativeUnique(tops[i].name, tops[i].files.value[h].name, t.name, t.files.value[j].name);
          }
        }
      }
    }
  }

  // ----- Counting proves completeness -----

  /** The entry `old` describes the recording that `e` describes. */
  predicate Describes(stored: Entry, e: Entry) {
    EntryOk(stored) && EntryOk(e) && stored.id == e.id && SameRecording(stored, e)
  }

  function Values(idx: seq<nat>): set<nat> {
    set i | i in idx
  }

  function Range(n: nat): (r: set<nat>)
    ensures forall i: nat :: i in r <==> i < n
  {
    if n == 0 then {} else Range(n - 1) + {n - 1}
  }

  lemma {:induction false} Distinct(idx: seq<nat>)
    requires forall a, b :: 0 <= a < b < |idx| ==> idx[a] != idx[b]
    ensures |Values(idx)| == |idx|
  {
    if idx != [] {
      var last, front := idx[|idx| - 1], idx[..|idx| - 1];
      Distinct(front);
      assert Values(idx) == Values(front) + {last};
    }
  }

  lemma {:induction false} RangeSize(n: nat)
    ensures |Range(n)| == n
  {
    if n > 0 {
      RangeSize(n - 1);
    }
  }

  /** `n` different numbers below `n` are all of them. */
  lemma Pigeonhole(idx: seq<nat>, n: nat, i: nat)
    requires |idx| == n && (forall a, b :: 0 <= a < b < n ==> idx[a] != idx[b]) && (forall a :: 0 <= a < n ==> idx[a] < n) && i < n
    ensures i in idx
  {
    Distinct(idx);
    RangeSize(n);
    SubsetOfSameSize(Values(idx), Range(n));
    assert i in Range(n);
  }

  lemma SubsetOfSameSize(a: set<nat>, b: set<nat>)
    requires a <= b && |a| == |b|
    ensures a == b
  {
    if x :| x in b && x !in a {
      assert a <= b - {x};
      SmallerSet(a, b - {x});
    }
  }

  lemma {:induction false} SmallerSet(a: set<nat>, b: set<nat>)
    requires a <= b
    ensures |a| <= |b|
    decreases a
  {
    if x :| x in a {
      SmallerSet(a - {x}, b - {x});
    }
  }

  /** As many entries as recordings, each recording described by one: then each entry describes a recording. */
  lemma CountingIsOnto(es: seq<Entry>, want: seq<Entry>, idx: seq<nat>, i: nat)
    requires |idx| == |want| == |es| && FilenamesDiffer(want) && i < |es|
    requires forall k :: 0 <= k < |want| ==> idx[k] < |es| && Describes(es[idx[k]], want[k])
    ensures exists k :: 0 <= k < |want| && idx[k] == i && Describes(es[i], want[k])
  {
    hide EntryOk;
    forall a, b | 0 <= a < b < |idx| ensures idx[a] != idx[b] {
      assert want[a].filename == es[idx[a]].filename;
      assert want[b].filename == es[idx[b]].filename;
    }
    Pigeonhole(idx, |es|, i);
    var k :| 0 <= k < |idx| && idx[k] == i;
    assert Describes(es[idx[k]], want[k]);
  }

  // ----- The scan -----

  datatype Verdict = Skipped | Indexed | Fatal

  /** The entries found so far are described in the committed manifest, each at its index. */
  predicate Found(es: seq<Entry>, want: seq<Entry>, idx: seq<nat>) {
    |idx| == |want| && forall k :: 0 <= k < |want| ==> idx[k] < |es| && Describes(es[idx[k]], want[k])
  }

  lemma FoundLater(es: seq<Entry>, fs: seq<Entry>, want: seq<Entry>, idx: seq<nat>)
    requires Found(es, want, idx) && es <= fs
    ensures Found(fs, want, idx)
  {
    hide EntryOk, SameRecording;
    forall k | 0 <= k < |want| ensures idx[k] < |fs| && Describes(fs[idx[k]], want[k]) {
      assert Describes(es[idx[k]], want[k]) && fs[idx[k]] == es[idx[k]];
    }
  }

  lemma FoundOne(es: seq<Entry>, e: Entry) returns (i: nat)
    requires Recorded(es, e)
    ensures i < |es| && Describes(es[i], e)
  {
    hide EntryOk, SameRecording;
    i :| 0 <= i < |es| && es[i].id == e.id && SameRecording(es[i], e);
  }

  /** device_manifest_hash_wav_file: only a finalized recording is hashed. */
  method HashFile(f: File) returns (sha: Option<string>)
    ensures sha == if f.readable && WavFormat.FinalizedValid(f.bytes) then Some(ShaText(f.bytes)) else None
  {
    if !f.readable || |f.bytes| < HEADER_SIZE || |f.bytes| >= UINT32 || !WavFormat.FinalizedValid(f.bytes) {
      return None;
    }
    sha := Sha256Hex.FileHex(f.bytes, f.readable);
  }

  /** A recording is finalized and was read; the path of every WAV file fits its buffer. */
  predicate FileFine(dir: string, f: File) {
    && (IsRecording(dir, f.name) ==> f.readable && WavFormat.FinalizedValid(f.bytes))
    && (WavName(f.name) ==> |Relative(dir, f.name)| < MAX_RELATIVE)
  }

  predicate FilesFine(dir: string, files: seq<File>, n: nat)
    requires n <= |files|
  {
    forall k :: 0 <= k < n ==> FileFine(dir, files[k])
  }

  /** A name of the recordings directory was looked up; what looks like a date is a directory, and its files are fine. */
  predicate TopFine(t: Top) {
    && t.statOk && (DateShape(t.name) ==> ValidDateDir(t.name) && t.isDir)
    && (t.isDir && ValidDateDir(t.name) ==> t.files.Some? && FilesFine(t.name, t.files.value, |t.files.value|))
  }

  predicate TopsFine(tops: seq<Top>) {
    forall k :: 0 <= k < |tops| ==> TopFine(tops[k])
  }

  /** The committed manifest is in place, and the call's arguments are acceptable. */
  predicate Prepared(files: Files, id: string, u: string, state: string) {
    Final in files && ValidUuid(id) && Calendar.ValidStamp(u) && state in {"finalized", "recovered"}
  }

  /** The entry is new, and the manifest with it is small enough to be published. */
  predicate HasRoom(s: Snapshot, id: string, u: string, e: Entry) {
    EntryOk(e) && !HasId(s.entries, e.id) &&
    var added := Snapshot(id, u, s.entries + [e]); SnapshotOk(added) && |Print(added)| <= CEILING
  }

  /** The directory's recordings have their entries. */
  ghost predicate DirListed(es: seq<Entry>, dir: string, files: seq<File>, state: string, n: nat)
    requires n <= |files|
  {
    forall k :: 0 <= k < n && IsRecording(dir, files[k].name) ==> Covers(es, EntryFor(dir, files[k], state))
  }

  lemma RoomMeans(s: Snapshot, id: string, u: string, e: Entry)
    requires HasRoom(s, id, u, e)
    ensures EntryOk(e) && |EntryText(e)| <= ENTRY_MAX && !HasId(s.entries, e.id)
  {
    hide EntryOk, EntryText, Print, HasId;
    EntryShort(e);
  }

  /** A plan for a new entry that has room is to write it. */
  lemma RoomAnswers(files: Files, id: string, u: string, s: Snapshot, e: Entry, r: Result, calm: bool)
    requires Committed(files, id, s) && HasRoom(s, id, u, e) && SnapshotOk(s)
    requires calm ==> Calendar.ValidStamp(u) && exists plan :: PlanFits(s, u, e, plan) && Answers(plan, r)
    ensures calm ==> r.Ok?
  {
    hide EntryOk, Print, HasId;
    assert s.deviceId == id;
  }

  lemma FinalizedLong(bytes: seq<Byte>)
    requires WavFormat.FinalizedValid(bytes)
    ensures |bytes| >= HEADER_SIZE
  {
  }

  /** An entry that describes a recording already: adding the recording again finds it. */
  lemma KnownEntry(files: Files, id: string, s: Snapshot, e: Entry) returns (x: Entry)
    requires Committed(files, id, s) && Covers(s.entries, e)
    ensures EntryOk(e) && |EntryText(e)| <= ENTRY_MAX && HasId(s.entries, e.id) && x in s.entries && x.id == e.id
    ensures x.sha256 == e.sha256 && x.filename == e.filename && x.sizeBytes == e.sizeBytes && x.durationMs == e.durationMs
    ensures TwoSecondsApart(x.startedAt, e.startedAt)
  {
    hide EntryOk, SameRecording, TwoSecondsApart, EntryText, Committed;
    var i :| 0 <= i < |s.entries| && Describes(s.entries[i], e);
    x := s.entries[i];
    SameFields(x, e);
    EntryShort(e);
  }

  /** ensure_one_wav. */
  method EnsureOne(card: Card, id: string, u: string, state: string, dir: string, f: File, calm: bool, ghost s: Snapshot)
      returns (v: Verdict, ghost t: Snapshot, ghost at: nat)
    requires Committed(card.files, id, s)
    modifies card
    ensures Committed(card.files, id, t) && s.entries <= t.entries
    ensures v.Skipped? ==> !IsRecording(dir, f.name)
    ensures v.Indexed? ==> IsRecording(dir, f.name) && f.readable && WavFormat.FinalizedValid(f.bytes)
    ensures v.Indexed? ==> at < |t.entries| && Describes(t.entries[at], EntryFor(dir, f, state)) && Stores(t.entries[at], dir, f)
    ensures calm && Prepared(old(card.files), id, u, state) && FileFine(dir, f) && (IsRecording(dir, f.name) ==> Covers(s.entries, EntryFor(dir, f, state)))
      ==> !v.Fatal? && t == s && card.files == old(card.files)
    ensures calm && Prepared(old(card.files), id, u, state) && FileFine(dir, f) && IsRecording(dir, f.name) && HasRoom(s, id, u, EntryFor(dir, f, state))
      ==> v.Indexed? && t.entries == s.entries + [EntryFor(dir, f, state)]
  {
    hide Committed, EntryOk, SameRecording, IsRecording, Describes, Stores, ShaText, EntryWith, WavFormat.FinalizedValid, HasRoom, PlanFits, EntryText;
    t, at := s, 0;
    if !IsRecording(dir, f.name) {
      return Skipped, t, at;
    }
    var sha := HashFile(f);
    if WavFormat.FinalizedValid(f.bytes) {
      FinalizedLong(f.bytes);
    }
    if sha.None? || |f.bytes| < HEADER_SIZE {
      return Fatal, t, at;
    }
    var e := EntryWith(dir, f, state, sha.value);
    ghost var known := Covers(s.entries, e);
    if known {
      ghost var x := KnownEntry(card.files, id, s, e);
    }
    if HasRoom(s, id, u, e) {
      RoomMeans(s, id, u, e);
      CommittedOk(card.files, id, s);
    }
    var r;
    r, t := card.Upsert(id, u, e, calm, s);
    if HasRoom(s, id, u, e) {
      RoomAnswers(old(card.files), id, u, s, e, r, calm && Prepared(old(card.files), id, u, state));
    }
    if !r.Ok? {
      return Fatal, t, at;
    }
    at := FoundOne(t.entries, e);
    DescribedStores(t.entries[at], dir, f, state);
    v := Indexed;
  }

  /** One date directory, in the order its names are listed. */
  method ScanDir(card: Card, id: string, u: string, state: string, dir: string, files: seq<File>, calm: bool,
                 ghost s: Snapshot, ghost had: seq<Entry>, ghost idx0: seq<nat>)
      returns (ok: bool, indexed: nat, ghost t: Snapshot, ghost idx: seq<nat>)
    requires Committed(card.files, id, s) && Found(s.entries, had, idx0)
    modifies card
    ensures Committed(card.files, id, t) && s.entries <= t.entries
    ensures ok ==> var mine := Wanted(dir, files, state, |files|); indexed == |mine| && Found(t.entries, had + mine, idx)
    ensures ok ==> FilesFine(dir, files, |files|)
    ensures calm && Prepared(old(card.files), id, u, state) && FilesFine(dir, files, |files|) && DirListed(s.entries, dir, files, state, |files|)
      ==> ok && t == s && card.files == old(card.files)
  {
    hide Committed, Describes, IsRecording, EntryFor, WavFormat.FinalizedValid, Stores, WavName, EntryOk;
    ok, indexed, t, idx := true, 0, s, idx0;
    assert had + [] == had;
    for k := 0 to |files|
      invariant Committed(card.files, id, t) && s.entries <= t.entries
      invariant indexed == |Wanted(dir, files, state, k)| && Found(t.entries, had + Wanted(dir, files, state, k), idx)
      invariant FilesFine(dir, files, k)
      invariant calm && Prepared(old(card.files), id, u, state) && FilesFine(dir, files, |files|) && DirListed(s.entries, dir, files, state, |files|)
        ==> t == s && card.files == old(card.files)
    {
      if WavName(files[k].name) && |Relative(dir, files[k].name)| >= MAX_RELATIVE {
        return false, indexed, t, idx;
      }
      ghost var before, want := t, had + Wanted(dir, files, state, k);
      ghost var at;
      var v;
      v, t, at := EnsureOne(card, id, u, state, dir, files[k], calm, t);
      FoundLater(before.entries, t.entries, want, idx);
      if v.Fatal? {
        return false, indexed, t, idx;
      }
      if v.Indexed? {
        indexed, idx := indexed + 1, idx + [at];
        ghost var e := EntryFor(dir, files[k], state);
        assert had + (Wanted(dir, files, state, k) + [e]) == want + [e];
      } else {
        assert Wanted(dir, files, state, k + 1) == Wanted(dir, files, state, k) + [];
      }
    }
  }

  /** Some entry describes the recording `e`. */
  ghost predicate Covers(es: seq<Entry>, e: Entry) {
    exists i :: 0 <= i < |es| && Describes(es[i], e)
  }

  /** The entry `e` describes one of the recordings. */
  ghost predicate CoveredBy(e: Entry, want: seq<Entry>) {
    exists k :: 0 <= k < |want| && Describes(e, want[k])
  }

  /** The scan is complete: entries and recordings describe each other one to one. */
  ghost predicate Complete(es: seq<Entry>, want: seq<Entry>) {
    && |es| == |want|
    && (forall k :: 0 <= k < |want| ==> Covers(es, want[k]))
    && (forall i :: 0 <= i < |es| ==> CoveredBy(es[i], want))
  }

  lemma CountsAgree(es: seq<Entry>, want: seq<Entry>, idx: seq<nat>)
    requires Found(es, want, idx) && FilenamesDiffer(want) && |es| == |want|
    ensures Complete(es, want)
  {
    hide Describes;
    forall i | 0 <= i < |es| ensures CoveredBy(es[i], want) {
      CountingIsOnto(es, want, idx, i);
    }
    forall k | 0 <= k < |want| ensures Covers(es, want[k]) {
      assert Describes(es[idx[k]], want[k]);
    }
  }

  lemma CompleteCounts(es: seq<Entry>, want: seq<Entry>)
    requires Complete(es, want)
    ensures |es| == |want|
  {
  }

  lemma DirKnown(es: seq<Entry>, tops: seq<Top>, state: string, i: nat)
    requires Complete(es, AllWanted(tops, state, |tops|)) && i < |tops|
    requires tops[i].isDir && ValidDateDir(tops[i].name) && tops[i].files.Some?
    ensures DirListed(es, tops[i].name, tops[i].files.value, state, |tops[i].files.value|)
  {
    hide IsRecording, EntryFor, ValidDateDir, AllWanted, Covers;
    var files := tops[i].files.value;
    forall j | 0 <= j < |files| && IsRecording(tops[i].name, files[j].name) ensures Covers(es, EntryFor(tops[i].name, files[j], state)) {
      AllWantedHas(tops, state, |tops|, i, j);
    }
  }

  method ReadCount(card: Card, id: string, calm: bool, ghost s: Snapshot) returns (count: Option<nat>)
    requires Committed(card.files, id, s)
    ensures count.Some? ==> Final in card.files
    ensures calm && Final in card.files ==> count.Some?
    ensures count.Some? ==> count.value == |s.entries|
  {
    hide Canonical;
    var readable: bool := *;
    if Final !in card.files || (!calm && !readable) || |card.files[Final]| > MAX_BYTES {
      return None;
    }
    count := CountRecordings(card.files[Final], id);
  }

  /** device_manifest_sync_wav_dir: `tops` is the listing of the recordings directory. */
  method Sync(card: Card, id: string, u: string, state: string, tops: Option<seq<Top>>, calm: bool, ghost s: Snapshot)
      returns (ok: bool, added: nat, ghost t: Snapshot)
    requires Committed(card.files, id, s) && (tops.Some? ==> NamesDiffer(tops.value))
    modifies card
    ensures Committed(card.files, id, t) && s.entries <= t.entries
    ensures ok ==> tops.Some? && Complete(t.entries, AllWanted(tops.value, state, |tops.value|)) && Lists(t.entries, tops.value)
    ensures ok ==> TopsFine(tops.value) && Prepared(card.files, id, u, state)
    ensures ok ==> added == |t.entries| - |s.entries|
    ensures calm && Prepared(old(card.files), id, u, state) && tops.Some? && TopsFine(tops.value) && Complete(s.entries, AllWanted(tops.value, state, |tops.value|))
      ==> ok && added == 0 && t == s && card.files == old(card.files)
  {
    hide Committed, Describes, IsRecording, EntryFor, ValidDateDir, DateShape, Wanted, FilesFine, Lists, Complete;
    ok, added, t := false, 0, s;
    if !ValidUuid(id) || !Calendar.ValidStamp(u) || state !in {"finalized", "recovered"} {
      return;
    }
    var before := ReadCount(card, id, calm, s);
    if before.None? || tops.None? {
      return;
    }
    var names, indexed := tops.value, 0;
    ghost var idx := [];
    for k := 0 to |names|
      invariant Committed(card.files, id, t) && s.entries <= t.entries
      invariant indexed == |AllWanted(names, state, k)| && Found(t.entries, AllWanted(names, state, k), idx)
      invariant forall j :: 0 <= j < k ==> TopFine(names[j])
      invariant calm && Prepared(old(card.files), id, u, state) && TopsFine(names) && Complete(s.entries, AllWanted(names, state, |names|))
        ==> t == s && card.files == old(card.files)
    {
      var top := names[k];
      ghost var had := AllWanted(names, state, k);
      if !top.statOk || (DateShape(top.name) && (!ValidDateDir(top.name) || !top.isDir)) {
        return;
      }
      if top.isDir && ValidDateDir(top.name) {
        if top.files.None? {
          return;
        }
        if Complete(s.entries, AllWanted(names, state, |names|)) {
          DirKnown(s.entries, names, state, k);
        }
        var fine, n;
        fine, n, t, idx := ScanDir(card, id, u, state, top.name, top.files.value, calm, t, had, idx);
        if !fine {
          return;
        }
        indexed := indexed + n;
      } else {
        assert had + [] == had;
      }
    }
    if Complete(s.entries, AllWanted(names, state, |names|)) {
      CompleteCounts(s.entries, AllWanted(names, state, |names|));
    }
    var after := ReadCount(card, id, calm, t);
    if after.None? || after.value != indexed || after.value < before.value {
      return;
    }
    AllWantedDiffer(names, state, |names|);
    CountsAgree(t.entries, AllWanted(names, state, |names|), idx);
    CompleteLists(t.entries, names, state);
    ok, added := true, after.value - before.value;
  }

  /** After a scan that succeeded, whatever failed before it, the next one without faults succeeds
      and adds nothing. */
  method SyncAgain(card: Card, id: string, u: string, state: string, tops: Option<seq<Top>>, ghost s: Snapshot)
      returns (ok: bool, again: bool, added: nat, ghost t: Snapshot)
    requires Committed(card.files, id, s) && (tops.Some? ==> NamesDiffer(tops.value))
    modifies card
    ensures Committed(card.files, id, t) && s.entries <= t.entries
    ensures ok ==> again && added == 0 && tops.Some? && Complete(t.entries, AllWanted(tops.value, state, |tops.value|))
  {
    hide Committed, Complete, Lists, TopsFine, AllWanted, NamesDiffer, Prepared;
    ok, added, t := Sync(card, id, u, state, tops, false, s);
    again, added, t := Sync(card, id, u, state, tops, true, t);
  }
}
