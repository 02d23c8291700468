/** The manifest on the card: publishing a new snapshot through tmp and backup, and the recovery at
    boot, on a FAT file system whose rename refuses an existing target. Any file operation may fail
    and power may be cut between any two of them, unless the run is `calm`. */
module ManifestStore {
  import opened Wrappers
  import opened ManifestText
  import opened ManifestFormat
  import opened Joining
  import opened ManifestCodec
  import opened ManifestEntries
  import opened ManifestSnapshot
  import opened ManifestReader
  import opened ManifestExtends
  import opened ManifestUpsert
  import opened ManifestWording
  import Calendar

  datatype Name = Final | Tmp | Bak
  datatype Outcome = PowerCut | Failed | Done
  datatype Result = Ok | ConflictingId | Error | Dark

  datatype Job = Boot | Add(updatedAt: string, entry: Entry)

  type Files = map<Name, string>

  // ----- What a card holds -----

  /** The file holds the snapshot `s` in at most the bytes a reader accepts. */
  predicate Holds(doc: string, id: string, s: Snapshot) {
    |doc| <= MAX_BYTES && Canonical(doc, id, s)
  }

  /** The card holds `s`: in the final file, or in the backup while no final file exists. A backup
      beside a final file holds a snapshot that the final one extends. The tmp file is arbitrary. */
  ghost predicate Committed(files: Files, id: string, s: Snapshot) {
    if Final in files then
      Holds(files[Final], id, s) && (Bak in files ==> exists b :: Holds(files[Bak], id, b) && b.entries <= s.entries)
    else
      Bak in files && Holds(files[Bak], id, s)
  }

  ghost predicate Valid(doc: string, id: string) {
    exists s :: Holds(doc, id, s)
  }

  ghost predicate ExtendsFile(newDoc: string, oldDoc: string, id: string) {
    exists n, o :: Holds(newDoc, id, n) && Holds(oldDoc, id, o) && o.entries <= n.entries
  }

  /** What recovery can work with: it decides the result of a calm recovery. */
  ghost predicate Recoverable(files: Files, id: string) {
    if Bak in files then Valid(files[Bak], id) && (Final in files ==> ExtendsFile(files[Final], files[Bak], id))
    else if Final in files then Valid(files[Final], id)
    else Tmp in files && Valid(files[Tmp], id)
  }

  /** The document that a recovery keeps. */
  function Authority(files: Files): string
    requires files != map[]
  {
    if Final in files then files[Final] else if Bak in files then files[Bak] else
      assert Tmp in files by { OnlyTmp(files); }
      files[Tmp]
  }

  lemma OnlyTmp(files: Files)
    requires files != map[] && Final !in files && Bak !in files
    ensures Tmp in files
  {
    var n :| n in files;
    assert n == Tmp;
  }

  predicate SameBesidesTmp(a: Files, b: Files) {
    forall n :: n in {Final, Bak} ==> (n in a <==> n in b) && (n in a ==> a[n] == b[n])
  }

  lemma OnlyFinal(files: Files)
    requires Final in files && Tmp !in files && Bak !in files
    ensures files.Keys == {Final}
  {
    forall n | n in files ensures n == Final {
      assert n.Final? || n.Tmp? || n.Bak?;
    }
  }

  /** The answer of a calm run for each plan. */
  predicate Answers(plan: Plan, r: Result) {
    match plan
    case Refuse => r.Error?
    case Already => r.Ok?
    case Conflict => r.ConflictingId?
    case Write(_) => r.Ok?
  }

  /** The recording `e` is listed: under its id, with its hash, name, size and start time. */
  ghost predicate Recorded(es: seq<Entry>, e: Entry) {
    AllOk(es) && EntryOk(e) && exists i :: 0 <= i < |es| && es[i].id == e.id && SameRecording(es[i], e)
  }

  lemma RecordedLater(es: seq<Entry>, fs: seq<Entry>, e: Entry)
    requires Recorded(es, e) && AllOk(fs) && es <= fs
    ensures Recorded(fs, e)
  {
    hide EntryOk, SameRecording;
    var i :| 0 <= i < |es| && es[i].id == e.id && SameRecording(es[i], e);
    assert fs[i] == es[i];
  }

  lemma WrittenIsRecorded(es: seq<Entry>, e: Entry)
    requires AllOk(es) && EntryOk(e)
    ensures Recorded(es + [e], e)
  {
    hide EntryOk;
    assert (es + [e])[|es|] == e;
    assert SameRecording(e, e);
  }

  /** Start times that name the same recording: the clock may have been set in between. */
  predicate TwoSecondsApart(a: string, b: string) {
    Calendar.ValidStamp(a) && Calendar.ValidStamp(b) && -2 <= Calendar.UtcSeconds(a) - Calendar.UtcSeconds(b) <= 2
  }

  /** What is stored under the id of a recorded entry. */
  lemma StoredFields(es: seq<Entry>, e: Entry)
    requires Recorded(es, e) && DistinctIds(es)
    ensures HasId(es, e.id)
    ensures forall x :: x in es && x.id == e.id ==> (
        x.sha256 == e.sha256 && x.filename == e.filename && x.sizeBytes == e.sizeBytes && x.durationMs == e.durationMs
        && TwoSecondsApart(x.startedAt, e.startedAt))
  {
    var i :| 0 <= i < |es| && es[i].id == e.id && SameRecording(es[i], e);
    SameFields(es[i], e);
    OnlyOne(es, i);
  }

  lemma EmptyArray()
    ensures |Array([])| < 100
  {
  }

  lemma SameFields(x: Entry, e: Entry)
    requires EntryOk(x) && EntryOk(e)
    ensures SameRecording(x, e) <==> (
        x.sha256 == e.sha256 && x.filename == e.filename && x.sizeBytes == e.sizeBytes && x.durationMs == e.durationMs
        && TwoSecondsApart(x.startedAt, e.startedAt))
  {
  }

  lemma OnlyOne(es: seq<Entry>, i: nat)
    requires DistinctIds(es) && i < |es|
    ensures forall x :: x in es && x.id == es[i].id ==> x == es[i]
  {
  }

  /** The plan for a stored id, by the stored fields. */
  lemma PlanFields(s: Snapshot, u: string, e: Entry, plan: Plan)
    requires SnapshotOk(s) && Calendar.ValidStamp(u) && EntryOk(e) && PlanFits(s, u, e, plan) && HasId(s.entries, e.id)
    ensures plan.Already? || plan.Conflict?
    ensures forall x :: x in s.entries && x.id == e.id ==> (plan.Already? <==> (
      x.sha256 == e.sha256 && x.filename == e.filename && x.sizeBytes == e.sizeBytes && x.durationMs == e.durationMs
      && TwoSecondsApart(x.startedAt, e.startedAt)))
  {
    hide EntryOk, SameRecording, TwoSecondsApart, Print;
    var i :| 0 <= i < |s.entries| && s.entries[i].id == e.id && plan == (if SameRecording(s.entries[i], e) then Already else Conflict);
    SameFields(s.entries[i], e);
    OnlyOne(s.entries, i);
  }

  lemma CanonicalPrint(doc: string, id: string, s: Snapshot)
    requires SnapshotOk(s) && s.deviceId == id && doc == Print(s)
    ensures Canonical(doc, id, s)
  {
  }

  lemma CommittedOk(files: Files, id: string, s: Snapshot)
    requires Committed(files, id, s)
    ensures SnapshotOk(s)
  {
  }

  /** A committed snapshot is what a recovery keeps. */
  lemma CommittedRecovers(files: Files, id: string, s: Snapshot)
    requires Committed(files, id, s)
    ensures files != map[] && Recoverable(files, id) && Holds(Authority(files), id, s)
  {
    hide Canonical;
  }

  /** A first creation that was cut while its tmp file was written: recovery can do something with it
      exactly if the bytes are a complete manifest. */
  lemma TornCreation(id: string, junk: string)
    ensures Recoverable(map[Tmp := junk], id) <==> Valid(junk, id)
    ensures !Recoverable(map[Tmp := ""], id)
  {
    hide EntryOk, EntryText;
    forall s ensures !Holds("", id, s) {
      if SnapshotOk(s) {
        assert |Print(s)| > 0;
      }
    }
  }

  class Card {
    var files: Files

    constructor (files: Files)
      ensures this.files == files
    {
      this.files := files;
    }

    // ----- File operations -----

    method Rename(from: Name, to: Name, calm: bool) returns (ok: bool, targetExists: bool)
      requires from != to
      modifies this
      ensures ok ==> from in old(files) && to !in old(files) && files == (old(files) - {from})[to := old(files)[from]]
      ensures !ok ==> files == old(files)
      ensures targetExists ==> !ok && to in files
      ensures calm && from in old(files) ==> ok == (to !in old(files)) && targetExists == !ok
    {
      var works, says: bool := *, *;
      ok := (calm || works) && from in files && to !in files;
      targetExists := (calm || says) && from in files && to in files;
      if ok {
        files := (files - {from})[to := files[from]];
      }
    }

    method Remove(name: Name, calm: bool) returns (ok: bool)
      modifies this
      ensures files == if ok then old(files) - {name} else old(files)
      ensures ok ==> name in old(files)
      ensures calm && name in old(files) ==> ok
    {
      var works: bool := *;
      ok := (calm || works) && name in files;
      if ok {
        files := files - {name};
      }
    }

    /** Write, flush, sync and close the tmp file. Until that is done its bytes are arbitrary. */
    method WriteTmp(doc: string, calm: bool) returns (r: Outcome)
      modifies this
      ensures SameBesidesTmp(old(files), files)
      ensures r.Done? ==> files == old(files)[Tmp := doc]
      ensures calm ==> r.Done?
    {
      var opens, synced, on: bool, junk: string := *, *, *, *;
      if !calm && !opens {
        return Failed;
      }
      files := files[Tmp := junk];
      if !calm && !on {
        return PowerCut;
      }
      if !calm && !synced {
        var _ := Remove(Tmp, calm);
        return Failed;
      }
      files := files[Tmp := doc];
      r := Done;
    }

    /** manifest_file_valid: reading may fail. */
    method FileValid(name: Name, id: string, calm: bool) returns (ok: bool)
      ensures ok ==> name in files && Valid(files[name], id)
      ensures calm && name in files && Valid(files[name], id) ==> ok
    {
      hide Canonical;
      var readable: bool := *;
      if name !in files || !(calm || readable) || |files[name]| > MAX_BYTES {
        return false;
      }
      var s;
      ok, s := SnapshotValid(files[name], id);
      assert ok ==> Holds(files[name], id, s);
    }

    /** manifest_file_extends: reading may fail. */
    method FileExtends(newName: Name, oldName: Name, id: string, calm: bool) returns (ok: bool)
      ensures ok ==> newName in files && oldName in files && ExtendsFile(files[newName], files[oldName], id)
      ensures calm && newName in files && oldName in files && ExtendsFile(files[newName], files[oldName], id) ==> ok
    {
      hide Canonical;
      var readable: bool := *;
      if newName !in files || oldName !in files || !(calm || readable) || |files[newName]| > MAX_BYTES || |files[oldName]| > MAX_BYTES {
        return false;
      }
      ok := Extends(files[newName], files[oldName], id);
      if ok {
        ghost var n, o :| Canonical(files[newName], id, n) && Canonical(files[oldName], id, o) && o.entries <= n.entries;
        assert Holds(files[newName], id, n) && Holds(files[oldName], id, o);
      }
    }

    // ----- Recovery at boot -----

    /** device_manifest_recover_tmp. */
    method Recover(id: string, calm: bool) returns (r: Outcome)
      modifies this
      ensures r.Done? ==> files.Keys == {Final} && Valid(files[Final], id) && old(files) != map[] && files[Final] == Authority(old(files))
      ensures calm ==> (r.Done? <==> old(files) != map[] && Recoverable(old(files), id))
      ensures calm ==> !r.PowerCut?
      ensures forall s :: Committed(old(files), id, s) ==> Committed(files, id, s)
    {
      hide Canonical;
      var probes, on1, on2: bool := *, *, *;
      if !calm && !probes {
        return Failed;
      }
      var hasFinal, hasTmp := Final in files, Tmp in files;
      if Bak in files {
        var ok := FileValid(Bak, id, calm);
        if !ok {
          return Failed;
        }
        if !hasFinal {
          var ok, _ := Rename(Bak, Final, calm);
          if !ok {
            return Failed;
          }
          hasFinal := true;
        } else {
          var ok := FileExtends(Final, Bak, id, calm);
          if !ok {
            return Failed;
          }
          ok := Remove(Bak, calm);
          if !ok {
            return Failed;
          }
        }
        if !calm && !on1 {
          return PowerCut;
        }
      }
      if hasFinal {
        var ok := FileValid(Final, id, calm);
        if !ok {
          return Failed;
        }
        if hasTmp {
          ok := Remove(Tmp, calm);
          if !ok {
            return Failed;
          }
        }
        OnlyFinal(files);
        return if calm || on2 then Done else PowerCut;
      }
      var ok := FileValid(Tmp, id, calm);
      if !hasTmp || !ok {
        return Failed;
      }
      var moved, _ := Rename(Tmp, Final, calm);
      if !moved {
        return Failed;
      }
      if !calm && !on2 {
        return PowerCut;
      }
      OnlyFinal(files);
      ok := FileValid(Final, id, calm);
      return if ok then Done else Failed;
    }

    /** Power lost while the first manifest was written: with nothing in the tmp file yet, not even a
        calm recovery succeeds. */
    static method CutFirstCreation(id: string) returns (card: Card, r: Outcome)
      ensures fresh(card) && r.Failed?
    {
      hide Recoverable, Canonical;
      TornCreation(id, "");
      card := new Card(map[Tmp := ""]);
      r := card.Recover(id, true);
    }

    // ----- Publishing a new snapshot -----

    /** write_tmp_and_rename: whatever fails and wherever power is cut, the card holds what it held
        or what was to be written. */
    method Publish(doc: string, id: string, calm: bool, ghost s: Option<Snapshot>, ghost t: Snapshot) returns (r: Outcome)
      requires Holds(doc, id, t)
      requires s.Some? ==> Committed(files, id, s.value) && (Final in files ==> s.value.entries <= t.entries)
      requires s.None? ==> Final !in files && Bak !in files
      modifies this
      ensures Committed(files, id, t) || (if s.Some? then Committed(files, id, s.value) else Final !in files && Bak !in files)
      ensures r.Done? ==> Committed(files, id, t) && Final in files && files[Final] == doc
      ensures old(Final !in files && Bak in files) ==> r.Failed? && files == old(files)
      ensures calm && !old(Final !in files && Bak in files) ==> r.Done?
    {
      hide Canonical;
      var on1, on2, on3, tells: bool := *, *, *, *;
      if Bak in files {
        var ok := FileExtends(Final, Bak, id, calm);
        if !ok {
          return Failed;
        }
        ok := Remove(Bak, calm);
        if !ok {
          return Failed;
        }
      }
      if !calm && !tells {
        return Failed;
      }
      var hadFinal := Final in files;
      r := WriteTmp(doc, calm);
      if !r.Done? {
        return;
      }
      if !calm && !on1 {
        return PowerCut;
      }
      var moved, taken := Rename(Tmp, Final, calm);
      if moved {
        var ok := FileValid(Final, id, calm);
        return if ok then Done else Failed;
      }
      if !hadFinal || !taken {
        return Failed;
      }
      moved, taken := Rename(Final, Bak, calm);
      if !moved {
        return Failed;
      }
      if !calm && !on2 {
        return PowerCut;
      }
      moved, taken := Rename(Tmp, Final, calm);
      if !moved {
        if Final !in files {
          moved, taken := Rename(Bak, Final, calm);
        }
        return Failed;
      }
      if !calm && !on3 {
        return PowerCut;
      }
      var ok := FileExtends(Final, Bak, id, calm);
      return if ok then Done else Failed;
    }

    /** A publication cut anywhere, then any number of recoveries cut anywhere: the next calm recovery
        leaves one file, and it holds what was there before or what was being written. */
    method CrashAndRecover(doc: string, id: string, attempts: nat, ghost s: Snapshot, ghost t: Snapshot)
      requires Committed(files, id, s) && Holds(doc, id, t) && s.entries <= t.entries
      modifies this
      ensures files.Keys == {Final} && (Holds(files[Final], id, s) || Holds(files[Final], id, t))
    {
      hide Canonical, Committed, Recoverable;
      var _ := Publish(doc, id, false, Some(s), t);
      ghost var kept := if Committed(files, id, t) then t else s;
      for i := 0 to attempts
        invariant Committed(files, id, kept)
      {
        var _ := Recover(id, false);
      }
      CommittedRecovers(files, id, kept);
      var _ := Recover(id, true);
    }

    // ----- Adding a recording -----

    /** The manifest is missing: create it, unless a backup is waiting for recovery. */
    method Create(id: string, u: string, e: Entry, calm: bool, ghost s: Option<Snapshot>) returns (r: Result)
      requires ValidUuid(id) && Calendar.ValidStamp(u) && EntryOk(e) && Final !in files
      requires if s.Some? then Committed(files, id, s.value) else Bak !in files
      modifies this
      ensures s.Some? ==> files == old(files) && !r.Ok?
      ensures s.None? ==> Committed(files, id, Snapshot(id, u, [e])) || (Final !in files && Bak !in files)
      ensures r.Ok? ==> Committed(files, id, Snapshot(id, u, [e]))
      ensures !r.ConflictingId?
      ensures calm && s.None? ==> r.Ok?
    {
      hide Canonical, EntryOk, EntryText;
      EntryShort(e);
      assert |Array([])| < 100 by { EmptyArray(); }
      var text := BeforeStampText(id) + u + (AFTER_STAMP + Array([])) + (Comma(0) + EntryText(e)) + "]}";
      if |text| >= MAX_BYTES {
        return Error;
      }
      AddedPrints(id, u, [], e);
      assert [] + [e] == [e];
      ghost var t := Snapshot(id, u, [e]);
      CanonicalPrint(text, id, t);
      var o := Publish(text, id, calm, s, t);
      r := if o.Done? then Ok else if o.Failed? then Error else Dark;
    }

    /** device_manifest_upsert_file. */
    method Upsert(id: string, u: string, e: Entry, calm: bool, ghost s: Snapshot) returns (r: Result, ghost t: Snapshot)
      requires Committed(files, id, s)
      modifies this
      ensures Committed(files, id, t) && (t == s || t == Snapshot(id, u, s.entries + [e]))
      ensures r.Ok? ==> Recorded(t.entries, e) && HasId(t.entries, e.id)
      ensures r.Ok? ==> forall x :: x in t.entries && x.id == e.id ==> (
        x.sha256 == e.sha256 && x.filename == e.filename && x.sizeBytes == e.sizeBytes && x.durationMs == e.durationMs
        && TwoSecondsApart(x.startedAt, e.startedAt))
      ensures calm && Final in old(files) && ValidUuid(id) && Calendar.ValidStamp(u) && EntryOk(e) && |EntryText(e)| <= ENTRY_MAX && HasId(s.entries, e.id)
        ==> (r.Ok? || r.ConflictingId?) && forall x :: x in s.entries && x.id == e.id ==> (r.Ok? <==> (
          x.sha256 == e.sha256 && x.filename == e.filename && x.sizeBytes == e.sizeBytes && x.durationMs == e.durationMs
          && TwoSecondsApart(x.startedAt, e.startedAt)))
      ensures r.ConflictingId? ==> files == old(files) && HasId(s.entries, e.id)
      ensures HasId(s.entries, e.id) ==> files == old(files) && t == s
      ensures calm && Final in old(files) && ValidUuid(id) && Calendar.ValidStamp(u) && EntryOk(e) && |EntryText(e)| <= ENTRY_MAX
        ==> SnapshotOk(s) && exists plan :: PlanFits(s, u, e, plan) && Answers(plan, r) && (t != s ==> plan.Write?)
    {
      hide Canonical, EntryOk, EntryText, SameRecording, TwoSecondsApart;
      t := s;
      if !ValidUuid(id) || !Calendar.ValidStamp(u) || !EntryOk(e) || |EntryText(e)| > ENTRY_MAX {
        return Error, t;
      }
      var readable: bool := *;
      if Final !in files {
        r := Create(id, u, e, calm, Some(s));
        return;
      }
      if (!calm && !readable) || |files[Final]| > MAX_BYTES {
        return Error, t;
      }
      var plan, m := PlanAppend(files[Final], id, u, e);
      OnlyMeaning(files[Final], id, s);
      CanonicalOk(files[Final], id, s);
      assert PlanFits(s, u, e, plan);
      if HasId(s.entries, e.id) {
        PlanFields(s, u, e, plan);
        if plan.Already? {
          StoredFields(s.entries, e);
        }
      }
      match plan
      case Refuse => r := Error;
      case Conflict => r := ConflictingId;
      case Already =>
        assert HasId(s.entries, e.id);
        r := Ok;
      case Write(doc) =>
        ghost var added := Snapshot(id, u, s.entries + [e]);
        CanonicalPrint(doc, id, added);
        var o := Publish(doc, id, calm, Some(s), added);
        if Committed(files, id, added) {
          t := added;
        }
        WrittenIsRecorded(s.entries, e);
        StoredFields(added.entries, e);
        r := if o.Done? then Ok else if o.Failed? then Error else Dark;
    }

    /** device_manifest_upsert_file for any text: `key` is the recordingId that the field scan found in
        it, and `same` whether the stored fields compare equal. Either nothing changes, or the entries
        that the text says are added. */
    method UpsertText(id: string, u: string, text: string, key: string, same: bool, calm: bool, ghost s: Snapshot) returns (r: Result, ghost t: Snapshot)
      requires Committed(files, id, s) && Final in files
      modifies this
      ensures Committed(files, id, t)
      ensures t == s || exists fs :: SaysEntries(text, s.entries, fs) && t == Snapshot(id, u, s.entries + fs)
      ensures r.Ok? && !HasId(s.entries, key) ==> t != s
      ensures HasId(s.entries, key) ==> files == old(files) && t == s
      ensures AllOk(s.entries)
      ensures calm && ValidUuid(id) && Calendar.ValidStamp(u) && ValidUuid(key) && 0 < |text| <= ENTRY_MAX ==>
        if HasId(s.entries, key) then r == (if same then Ok else ConflictingId)
        else r.Ok? <==> |Spliced(id, u, s.entries, text)| <= CEILING && exists fs :: SaysEntries(text, s.entries, fs)
    {
      hide Canonical, EntryOk, EntryText, EntryIs, Spliced, SaysEntries;
      t := s;
      CanonicalOk(files[Final], id, s);
      var readable: bool := *;
      if !ValidUuid(id) || !Calendar.ValidStamp(u) || !ValidUuid(key) || text == "" || |text| > ENTRY_MAX || (!calm && !readable)
        || |files[Final]| > MAX_BYTES {
        return Error, t;
      }
      CanonicalOk(files[Final], id, s);
      UuidSafe(key);
      var at := Find(files[Final], 0, Needle(key));
      if at.Some? {
        ghost var j := ProbeHits(files[Final], id, s, at.value, key);
        return if same then Ok else ConflictingId, t;
      }
      ProbeMisses(files[Final], id, s, key);
      var doc := Splice(files[Final], id, u, text, s);
      if |doc| > CEILING {
        return Error, t;
      }
      SplicedExactly(id, u, s.entries, text);
      var ok, added := SnapshotValid(doc, id);
      if !ok {
        return Error, t;
      }
      ghost var fs := SplicedSays(id, u, s.entries, text, added);
      var o := Publish(doc, id, calm, Some(s), added);
      if Committed(files, id, added) {
        t := added;
      }
      r := if o.Done? then Ok else if o.Failed? then Error else Dark;
    }

    /** A life of the card: uploads of recordings and boots, each cut or failing anywhere. What was
        committed stays a prefix, and what was answered OK stays recorded. */
    method Serve(id: string, jobs: seq<Job>, ghost s: Snapshot) returns (done: seq<Entry>, ghost t: Snapshot)
      requires Committed(files, id, s)
      modifies this
      ensures Committed(files, id, t) && s.entries <= t.entries
      ensures forall i :: 0 <= i < |done| ==> Recorded(t.entries, done[i])
    {
      hide Canonical, Committed, Recoverable, Recorded, EntryOk;
      done, t := [], s;
      for k := 0 to |jobs|
        invariant Committed(files, id, t) && s.entries <= t.entries
        invariant forall i :: 0 <= i < |done| ==> Recorded(t.entries, done[i])
      {
        match jobs[k]
        case Boot => var _ := Recover(id, false);
        case Add(u, e) =>
          ghost var before := t;
          var r;
          r, t := Upsert(id, u, e, false, t);
          CommittedOk(files, id, t);
          forall i | 0 <= i < |done| ensures Recorded(t.entries, done[i]) {
            RecordedLater(before.entries, t.entries, done[i]);
          }
          if r.Ok? {
            done := done + [e];
          }
      }
    }
  }
}
