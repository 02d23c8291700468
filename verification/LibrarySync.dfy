/** Copying a device's recordings into the PC library: verified, never replacing a file, and
    converging after an interruption at any step (sync_device). */
module LibrarySync {
  import opened Wrappers
  import opened Bytes
  import opened Sha256

  datatype Status = Synced | Conflict

  /** A database row; `facts` stands for the columns that are copied from the manifest entry and the path. */
  datatype Row = Row(device: string, sha: seq<Byte>, size: nat, facts: string, status: Status)

  /** A manifest entry that passed the preflight, with the bytes its source file holds. */
  datatype Recording = Recording(id: string, size: nat, sha: seq<Byte>, facts: string, source: seq<Byte>)

  /** What the library holds for one recordingId. */
  datatype Cell = Cell(final: Option<seq<Byte>>, partial: Option<seq<Byte>>, row: Option<Row>)

  /** _file_matches */
  predicate Matches(bytes: seq<Byte>, r: Recording) {
    |bytes| == r.size && Sha256Of(bytes) == r.sha
  }

  predicate Sound(r: Recording) {
    Matches(r.source, r)
  }

  function RowFor(device: string, r: Recording, status: Status): Row {
    Row(device, r.sha, r.size, r.facts, status)
  }

  /** The row disagrees with the device's manifest about what the recording is. */
  predicate Disagrees(row: Row, device: string, r: Recording) {
    row.device != device || row.sha != r.sha || row.size != r.size
  }

  /** _mark_conflict */
  function Conflicted(row: Option<Row>, device: string, r: Recording): Option<Row> {
    if row.None? then Some(RowFor(device, r, Conflict)) else Some(row.value.(status := Conflict))
  }

  datatype Verdict = Copied | Reused | Refused

  /** What an uninterrupted run does for one recording. */
  function Decide(c: Cell, device: string, r: Recording): Verdict {
    if c.row.Some? && Disagrees(c.row.value, device, r) then Refused
    else if c.final.None? then Copied
    else if Matches(c.final.value, r) then Reused
    else Refused
  }

  function Settled(c: Cell, device: string, r: Recording): Cell {
    match Decide(c, device, r)
    case Refused => c.(row := Conflicted(c.row, device, r))
    case Reused => Cell(c.final, None, Some(RowFor(device, r, Synced)))
    case Copied => Cell(Some(r.source), None, Some(RowFor(device, r, Synced)))
  }

  /** The outcome when an existing final file cannot be read: it counts as different. */
  function Misjudged(c: Cell, device: string, r: Recording): Cell {
    c.(row := Conflicted(c.row, device, r))
  }

  /** What a run that is not interrupted leaves, when it can or cannot read an existing final file. */
  function Judged(c: Cell, device: string, r: Recording, readable: bool): Cell {
    if Decide(c, device, r) == Reused && !readable then Misjudged(c, device, r) else Settled(c, device, r)
  }

  /** The states an interruption can leave between the steps for one recording, or a final file that
      could not be read. */
  predicate Midway(c: Cell, m: Cell, device: string, r: Recording) {
    match Decide(c, device, r)
    case Refused => m == c || m == Settled(c, device, r)
    case Reused =>
      m == c || m == Misjudged(c, device, r) || m == Cell(c.final, c.partial, Some(RowFor(device, r, Synced))) || m == Settled(c, device, r)
    case Copied =>
      || (m.final.None? && m.row == c.row)
      || (m.final == Some(r.source) && (m.row == c.row || m == Settled(c, device, r)))
  }

  /** Running again from any such state ends where the uninterrupted run ends. */
  lemma MidwayConverges(c: Cell, m: Cell, device: string, r: Recording)
    requires Sound(r) && Midway(c, m, device, r)
    ensures Settled(m, device, r) == Settled(c, device, r)
  {
    hide Matches;
  }

  /** A second run settles nothing differently and copies nothing. */
  lemma SettledIsStable(c: Cell, device: string, r: Recording)
    requires Sound(r)
    ensures Settled(Settled(c, device, r), device, r) == Settled(c, device, r)
    ensures Decide(Settled(c, device, r), device, r) != Copied
  {
    hide Matches;
  }

  /** A finished file is never replaced, and a run marks a recording synced only beside a matching file. */
  lemma SettledIsSafe(c: Cell, device: string, r: Recording)
    requires Sound(r)
    ensures c.final.Some? ==> Settled(c, device, r).final == c.final
    ensures var s := Settled(c, device, r); s.row.Some? && s.row.value.status == Synced ==> s.final.Some? && Matches(s.final.value, r)
    ensures Settled(c, device, r).row.Some?
  {
    hide Matches;
  }

  /** What stands against a recording: a row of another device, hash or size, or a file of another size or hash. */
  lemma ConflictExactly(c: Cell, device: string, r: Recording)
    ensures var s := Settled(c, device, r);
      var against := (c.row.Some? && (c.row.value.device != device || c.row.value.sha != r.sha || c.row.value.size != r.size))
                     || (c.final.Some? && (|c.final.value| != r.size || Sha256Of(c.final.value) != r.sha));
      if against then s.final == c.final && s.partial == c.partial && s.row == Some(if c.row.Some? then c.row.value.(status := Conflict) else Row(device, r.sha, r.size, r.facts, Conflict))
      else s.final == Some(if c.final.Some? then c.final.value else r.source) && s.partial.None? && s.row == Some(Row(device, r.sha, r.size, r.facts, Synced))
  {
    hide Sha256Of;
  }

  /** A recording is settled exactly unless a matching final file could not be read; then its row says
      conflict where it should say synced. */
  lemma JudgedExactly(c: Cell, device: string, r: Recording, readable: bool)
    ensures Judged(c, device, r, readable) == Settled(c, device, r) <==> readable || Decide(c, device, r) != Reused
    ensures Midway(c, Judged(c, device, r, readable), device, r)
  {
    hide Matches;
  }

  /** Nothing on the way touches a finished file, or marks a recording synced without a matching one. */
  lemma MidwayIsSafe(c: Cell, m: Cell, device: string, r: Recording)
    requires Sound(r) && Midway(c, m, device, r)
    ensures c.final.Some? ==> m.final == c.final
    ensures m.row != c.row && m.row.Some? && m.row.value.status == Synced ==> m.final.Some? && Matches(m.final.value, r)
  {
    hide Matches;
  }

  // ----- The library -----

  predicate Distinct(rs: seq<Recording>) {
    forall i, j :: 0 <= i < j < |rs| ==> rs[i].id != rs[j].id
  }

  predicate AllSound(rs: seq<Recording>) {
    forall i :: 0 <= i < |rs| ==> Sound(rs[i])
  }

  /** The files and rows, by recordingId. */
  datatype Library = Library(finals: map<string, seq<Byte>>, partials: map<string, seq<Byte>>, rows: map<string, Row>) {
    function At(id: string): Cell {
      Cell(if id in finals then Some(finals[id]) else None,
           if id in partials then Some(partials[id]) else None,
           if id in rows then Some(rows[id]) else None)
    }

    predicate Has(id: string) {
      id in finals || id in partials || id in rows
    }
  }

  /** What an uninterrupted run over the first `n` recordings leaves for an id. */
  function Outcome(l: Library, device: string, rs: seq<Recording>, n: nat, id: string): Cell
    requires n <= |rs|
  {
    if n == 0 then l.At(id)
    else if rs[n - 1].id == id then Settled(Outcome(l, device, rs, n - 1, id), device, rs[n - 1])
    else Outcome(l, device, rs, n - 1, id)
  }

  /** The library is where an uninterrupted run over the first `n` recordings would leave it. */
  ghost predicate Reached(l: Library, m: Library, device: string, rs: seq<Recording>, n: nat)
    requires n <= |rs|
  {
    forall id :: m.At(id) == Outcome(l, device, rs, n, id)
  }

  /** A run has judged the first `n` recordings, unable to read the final files in `unreadable`. */
  ghost predicate JudgedTo(l: Library, m: Library, device: string, rs: seq<Recording>, n: nat, unreadable: set<string>)
    requires n <= |rs|
  {
    && (forall i :: 0 <= i < n ==> m.At(rs[i].id) == Judged(l.At(rs[i].id), device, rs[i], rs[i].id !in unreadable))
    && (forall id :: (forall i :: 0 <= i < n ==> rs[i].id != id) ==> m.At(id) == l.At(id))
  }

  /** Every recording is somewhere on its way, and nothing else changed. */
  ghost predicate OnTheWay(l: Library, m: Library, device: string, rs: seq<Recording>) {
    && (forall i :: 0 <= i < |rs| ==> Midway(l.At(rs[i].id), m.At(rs[i].id), device, rs[i]))
    && (forall id :: (forall i :: 0 <= i < |rs| ==> rs[i].id != id) ==> m.At(id) == l.At(id))
  }

  /** Without recordings of the id, nothing happens to it. */
  lemma {:induction false} Untouched(l: Library, device: string, rs: seq<Recording>, n: nat, id: string)
    requires n <= |rs| && forall i :: 0 <= i < n ==> rs[i].id != id
    ensures Outcome(l, device, rs, n, id) == l.At(id)
  {
    if n > 0 {
      Untouched(l, device, rs, n - 1, id);
    }
  }

  /** The one recording of an id settles it. */
  lemma {:induction false} SettlesOnce(l: Library, device: string, rs: seq<Recording>, n: nat, i: nat)
    requires i < n <= |rs| && Distinct(rs)
    ensures Outcome(l, device, rs, n, rs[i].id) == Settled(l.At(rs[i].id), device, rs[i])
  {
    if i == n - 1 {
      Untouched(l, device, rs, n - 1, rs[i].id);
    } else {
      SettlesOnce(l, device, rs, n - 1, i);
    }
  }

  /** A run that judged everything reached the uninterrupted run's outcome exactly if no matching final
      file was unreadable. */
  lemma ReachedExactly(l: Library, m: Library, device: string, rs: seq<Recording>, unreadable: set<string>)
    requires Distinct(rs) && JudgedTo(l, m, device, rs, |rs|, unreadable)
    ensures Reached(l, m, device, rs, |rs|) <==> forall i :: 0 <= i < |rs| && rs[i].id in unreadable ==> Decide(l.At(rs[i].id), device, rs[i]) != Reused
    ensures OnTheWay(l, m, device, rs)
  {
    hide Settled, Judged, Decide, Midway;
    var n := |rs|;
    forall i | 0 <= i < n
      ensures Outcome(l, device, rs, n, rs[i].id) == Settled(l.At(rs[i].id), device, rs[i])
      ensures m.At(rs[i].id) == Settled(l.At(rs[i].id), device, rs[i]) <==> rs[i].id !in unreadable || Decide(l.At(rs[i].id), device, rs[i]) != Reused
      ensures Midway(l.At(rs[i].id), m.At(rs[i].id), device, rs[i])
    {
      SettlesOnce(l, device, rs, n, i);
      JudgedExactly(l.At(rs[i].id), device, rs[i], rs[i].id !in unreadable);
    }
    forall id | forall i :: 0 <= i < n ==> rs[i].id != id ensures Outcome(l, device, rs, n, id) == l.At(id) {
      Untouched(l, device, rs, n, id);
    }
  }

  /** A full run after a run interrupted anywhere, or one that could not read a final file, ends where
      one full run ends, for every id. */
  lemma RerunConverges(l: Library, m: Library, device: string, rs: seq<Recording>, id: string)
    requires Distinct(rs) && AllSound(rs) && OnTheWay(l, m, device, rs)
    ensures Outcome(m, device, rs, |rs|, id) == Outcome(l, device, rs, |rs|, id)
  {
    hide Settled, Midway, Sound;
    var n := |rs|;
    if i :| 0 <= i < n && rs[i].id == id {
      SettlesOnce(l, device, rs, n, i);
      SettlesOnce(m, device, rs, n, i);
      MidwayConverges(l.At(id), m.At(id), device, rs[i]);
    } else {
      Untouched(l, device, rs, n, id);
      Untouched(m, device, rs, n, id);
    }
  }

  // ----- The program -----

  const CHUNK: nat := 1024 * 1024

  /** Only the id's cell may differ. */
  ghost predicate OthersSame(a: Library, b: Library, id: string) {
    forall x :: x != id ==> a.At(x) == b.At(x)
  }

  class Pc {
    var lib: Library

    constructor (lib: Library)
      ensures this.lib == lib
    {
      this.lib := lib;
    }

    /** copy_verified_stream: into a fresh partial, from byte zero, verified before it returns true. */
    method CopyVerified(r: Recording, calm: bool) returns (ok: bool)
      modifies this
      ensures OthersSame(old(lib), lib, r.id)
      ensures lib.finals == old(lib).finals && lib.rows == old(lib).rows
      ensures ok ==> Sound(r) && r.id in lib.partials && lib.partials[r.id] == r.source
      ensures calm && Sound(r) ==> ok
    {
      hide Sha256Of;
      var opens, synced: bool := *, *;
      if !calm && !opens {
        return false;
      }
      var copied := [];
      lib := lib.(partials := lib.partials[r.id := copied]);
      while |copied| < |r.source|
        invariant |copied| <= |r.source| && copied == r.source[..|copied|] && r.id in lib.partials && lib.partials[r.id] == copied
        invariant OthersSame(old(lib), lib, r.id) && lib.finals == old(lib).finals && lib.rows == old(lib).rows
      {
        var on: bool := *;
        if !calm && !on {
          return false;
        }
        var next := if |copied| + CHUNK < |r.source| then |copied| + CHUNK else |r.source|;
        assert copied + r.source[|copied|..next] == r.source[..next];
        copied := copied + r.source[|copied|..next];
        lib := lib.(partials := lib.partials[r.id := copied]);
      }
      if !calm && !synced {
        return false;
      }
      assert copied == r.source by { assert r.source[..|r.source|] == r.source; }
      ok := |copied| == r.size && Sha256Of(copied) == r.sha;
    }

    /** publish_no_clobber: link, then unlink the partial; on Windows one rename. */
    method Publish(id: string, windows: bool, calm: bool) returns (ok: bool)
      requires id in lib.partials
      modifies this
      ensures OthersSame(old(lib), lib, id) && lib.rows == old(lib).rows
      ensures old(id in lib.finals) ==> !ok && lib == old(lib)
      ensures ok ==> lib.At(id) == Cell(Some(old(lib.partials[id])), None, old(lib).At(id).row)
      ensures lib.At(id).final in {old(lib).At(id).final, Some(old(lib.partials[id]))}
      ensures calm && old(id !in lib.finals) ==> ok
    {
      var works, on, unlinks: bool := *, *, *;
      if id in lib.finals || (!calm && !works) {
        return false;
      }
      var bytes := lib.partials[id];
      if windows {
        lib := lib.(finals := lib.finals[id := bytes], partials := lib.partials - {id});
        return true;
      }
      lib := lib.(finals := lib.finals[id := bytes]);
      if !calm && !on {
        return false;
      }
      if !calm && !unlinks {
        lib := lib.(finals := lib.finals - {id});
        return false;
      }
      lib := lib.(partials := lib.partials - {id});
      return true;
    }

    /** One database transaction. */
    method WriteRow(id: string, row: Row, calm: bool) returns (ok: bool)
      modifies this
      ensures OthersSame(old(lib), lib, id)
      ensures lib.At(id) == (if ok then old(lib).At(id).(row := Some(row)) else old(lib).At(id))
      ensures calm ==> ok
    {
      var commits: bool := *;
      ok := calm || commits;
      if ok {
        lib := lib.(rows := lib.rows[id := row]);
      }
    }

    /** One recording of the loop; false when the run is interrupted here. `readable` says whether an
        existing final file can be read. */
    method SyncOne(device: string, r: Recording, windows: bool, readable: bool, calm: bool) returns (ok: bool, verdict: Verdict)
      modifies this
      ensures OthersSame(old(lib), lib, r.id)
      ensures ok ==> lib.At(r.id) == Judged(old(lib).At(r.id), device, r, readable)
      ensures verdict == if Decide(old(lib).At(r.id), device, r) == Reused && !readable then Refused else Decide(old(lib).At(r.id), device, r)
      ensures !ok ==> Midway(old(lib).At(r.id), lib.At(r.id), device, r)
      ensures calm && Sound(r) ==> ok
    {
      hide Sha256Of;
      var existing := lib.At(r.id).row;
      if existing.Some? && Disagrees(existing.value, device, r) {
        ok := WriteRow(r.id, Conflicted(existing, device, r).value, calm);
        return ok, Refused;
      }
      if r.id in lib.finals {
        ok, verdict := Reuse(device, r, existing, readable, calm);
        return;
      }
      verdict := Copied;
      ok := CopyVerified(r, calm);
      if !ok {
        return;
      }
      ok := Publish(r.id, windows, calm);
      if !ok {
        return;
      }
      var again: bool := *;
      if !(calm || again) || !Matches(lib.finals[r.id], r) {
        return false, Copied;
      }
      ok := WriteRow(r.id, RowFor(device, r, Synced), calm);
    }

    /** A final file exists: reuse it if it reads back as the recording, and otherwise mark a conflict. */
    method Reuse(device: string, r: Recording, existing: Option<Row>, readable: bool, calm: bool) returns (ok: bool, verdict: Verdict)
      requires existing == lib.At(r.id).row && r.id in lib.finals && (existing.Some? ==> !Disagrees(existing.value, device, r))
      modifies this
      ensures OthersSame(old(lib), lib, r.id)
      ensures ok ==> lib.At(r.id) == Judged(old(lib).At(r.id), device, r, readable)
      ensures verdict == if readable && Matches(old(lib).finals[r.id], r) then Reused else Refused
      ensures !ok ==> Midway(old(lib).At(r.id), lib.At(r.id), device, r)
      ensures calm ==> ok
    {
      hide Sha256Of;
      if !readable || !Matches(lib.finals[r.id], r) {
        ok := WriteRow(r.id, Conflicted(existing, device, r).value, calm);
        return ok, Refused;
      }
      ok := WriteRow(r.id, RowFor(device, r, Synced), calm);
      var unlinks: bool := *;
      if !ok || (!calm && !unlinks) {
        return false, Reused;
      }
      lib := lib.(partials := lib.partials - {r.id});
      verdict := Reused;
    }

    /** sync_device after its preflight. `unreadable` holds the recordings whose existing final file
        cannot be read in this run. */
    method Sync(device: string, rs: seq<Recording>, windows: bool, unreadable: set<string>, calm: bool)
        returns (done: bool, copied: nat, reused: nat, conflicts: nat)
      requires Distinct(rs)
      modifies this
      ensures OnTheWay(old(lib), lib, device, rs)
      ensures done ==> JudgedTo(old(lib), lib, device, rs, |rs|, unreadable) && copied + reused + conflicts == |rs|
      ensures done ==> (Reached(old(lib), lib, device, rs, |rs|)
        <==> forall i :: 0 <= i < |rs| && rs[i].id in unreadable ==> Decide(old(lib).At(rs[i].id), device, rs[i]) != Reused)
      ensures (forall i :: 0 <= i < |rs| ==> Decide(old(lib).At(rs[i].id), device, rs[i]) != Copied) ==> copied == 0
      ensures calm && AllSound(rs) ==> done
    {
      hide Settled, Midway, Decide, Sound, Judged, Reached, OnTheWay;
      copied, reused, conflicts := 0, 0, 0;
      for k := 0 to |rs|
        invariant JudgedTo(old(lib), lib, device, rs, k, unreadable) && copied + reused + conflicts == k
        invariant (forall i :: 0 <= i < |rs| ==> Decide(old(lib).At(rs[i].id), device, rs[i]) != Copied) ==> copied == 0
      {
        ghost var before := lib;
        assert before.At(rs[k].id) == old(lib).At(rs[k].id);
        var ok, verdict := SyncOne(device, rs[k], windows, rs[k].id !in unreadable, calm);
        if !ok {
          StoppedAt(old(lib), before, lib, device, rs, k, unreadable);
          return false, copied, reused, conflicts;
        }
        match verdict
        case Copied => copied := copied + 1;
        case Reused => reused := reused + 1;
        case Refused => conflicts := conflicts + 1;
      }
      ReachedExactly(old(lib), lib, device, rs, unreadable);
      done := true;
    }

    /** Any number of runs interrupted anywhere or unable to read final files, then one that is neither:
        the library ends where a single uninterrupted run would have left it, and a further run copies
        nothing. */
    method SyncUntilDone(device: string, rs: seq<Recording>, windows: bool, attempts: seq<set<string>>) returns (again: nat)
      requires Distinct(rs) && AllSound(rs)
      modifies this
      ensures Reached(old(lib), lib, device, rs, |rs|) && again == 0
    {
      hide Settled, Midway, Decide, Sound, Reached, JudgedTo, OnTheWay;
      ghost var l := lib;
      ghost var n := |rs|;
      var done, copied, reused, conflicts;
      for a := 0 to |attempts|
        invariant forall id :: Outcome(lib, device, rs, n, id) == Outcome(l, device, rs, n, id)
      {
        ghost var m := lib;
        done, copied, reused, conflicts := Sync(device, rs, windows, attempts[a], false);
        forall id ensures Outcome(lib, device, rs, n, id) == Outcome(m, device, rs, n, id) {
          RerunConverges(m, lib, device, rs, id);
        }
      }
      ghost var m := lib;
      done, copied, reused, conflicts := Sync(device, rs, windows, {}, true);
      SameOutcome(l, m, lib, device, rs);
      NothingLeft(m, lib, device, rs);
      ghost var t := lib;
      done, again, reused, conflicts := Sync(device, rs, windows, {}, true);
      ReachedTwice(l, t, lib, device, rs);
    }
  }

  /** Interrupted in recording `k`, with the ones before it judged and the ones after it untouched. */
  lemma StoppedAt(l: Library, before: Library, m: Library, device: string, rs: seq<Recording>, k: nat, unreadable: set<string>)
    requires k < |rs| && Distinct(rs) && JudgedTo(l, before, device, rs, k, unreadable) && OthersSame(before, m, rs[k].id)
    requires Midway(l.At(rs[k].id), m.At(rs[k].id), device, rs[k])
    ensures OnTheWay(l, m, device, rs)
  {
    hide Settled, Midway, Decide, Judged;
    forall i | 0 <= i < |rs| ensures Midway(l.At(rs[i].id), m.At(rs[i].id), device, rs[i]) {
      if i < k {
        JudgedExactly(l.At(rs[i].id), device, rs[i], rs[i].id !in unreadable);
      } else if i > k {
        Unmoved(l.At(rs[i].id), device, rs[i]);
      }
    }
  }

  lemma Unmoved(c: Cell, device: string, r: Recording)
    ensures Midway(c, c, device, r)
  {
  }

  lemma SameOutcome(l: Library, m: Library, t: Library, device: string, rs: seq<Recording>)
    requires (forall id :: Outcome(m, device, rs, |rs|, id) == Outcome(l, device, rs, |rs|, id)) && Reached(m, t, device, rs, |rs|)
    ensures Reached(l, t, device, rs, |rs|)
  {
    hide Settled;
  }

  lemma NothingLeft(m: Library, t: Library, device: string, rs: seq<Recording>)
    requires Distinct(rs) && AllSound(rs) && Reached(m, t, device, rs, |rs|)
    ensures forall i :: 0 <= i < |rs| ==> Decide(t.At(rs[i].id), device, rs[i]) != Copied
  {
    hide Settled, Decide, Sound;
    forall i | 0 <= i < |rs| ensures Decide(t.At(rs[i].id), device, rs[i]) != Copied {
      SettlesOnce(m, device, rs, |rs|, i);
      SettledIsStable(m.At(rs[i].id), device, rs[i]);
    }
  }

  lemma ReachedIsOnTheWay(l: Library, m: Library, device: string, rs: seq<Recording>)
    requires Distinct(rs) && Reached(l, m, device, rs, |rs|)
    ensures OnTheWay(l, m, device, rs)
  {
    hide Settled, Midway, Decide;
    forall i | 0 <= i < |rs| ensures Midway(l.At(rs[i].id), m.At(rs[i].id), device, rs[i]) {
      SettlesOnce(l, device, rs, |rs|, i);
      JudgedExactly(l.At(rs[i].id), device, rs[i], true);
    }
    forall id | forall i :: 0 <= i < |rs| ==> rs[i].id != id ensures m.At(id) == l.At(id) {
      Untouched(l, device, rs, |rs|, id);
    }
  }

  lemma ReachedTwice(l: Library, t: Library, u: Library, device: string, rs: seq<Recording>)
    requires Distinct(rs) && AllSound(rs) && Reached(l, t, device, rs, |rs|) && Reached(t, u, device, rs, |rs|)
    ensures Reached(l, u, device, rs, |rs|)
  {
    hide Settled, Sound;
    forall id ensures u.At(id) == Outcome(l, device, rs, |rs|, id) {
      ReachedIsOnTheWay(l, t, device, rs);
      RerunConverges(l, t, device, rs, id);
    }
  }
}
