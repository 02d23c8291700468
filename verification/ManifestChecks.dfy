/** The field checks of a manifest, as the loops that make them. */
module ManifestChecks {
  import opened Audio
  import opened Bytes
  import opened ManifestText
  import opened ManifestFormat
  import opened Calendar

  /** device_identity_is_valid_uuid. */
  method IsUuid(s: string) returns (ok: bool)
    ensures ok == ValidUuid(s)
  {
    if |s| != 36 {
      return false;
    }
    for i := 0 to 36
      invariant forall k :: 0 <= k < i ==> if k in {8, 13, 18, 23} then s[k] == '-' else IsHex(s[k])
    {
      if i == 8 || i == 13 || i == 18 || i == 23 {
        if s[i] != '-' {
          return false;
        }
      } else if !('0' <= s[i] <= '9') && !('a' <= s[i] <= 'f') && !('A' <= s[i] <= 'F') {
        return false;
      }
    }
    ok := true;
  }

  /** sha256_is_valid_hex. */
  method IsSha256(s: string) returns (ok: bool)
    ensures ok == ValidSha256(s)
  {
    if |s| != 64 {
      return false;
    }
    for i := 0 to 64
      invariant forall k :: 0 <= k < i ==> LowerHex(s[k])
    {
      if !('0' <= s[i] <= '9') && !('a' <= s[i] <= 'f') {
        return false;
      }
    }
    ok := true;
  }

  /** The loop of safe_free_text and of valid_filename. */
  method IsSafe(s: string) returns (ok: bool)
    ensures ok == Safe(s)
  {
    for i := 0 to |s|
      invariant forall k :: 0 <= k < i ==> SafeChar(s[k])
    {
      if s[i] == '"' || s[i] == '\\' || s[i] < ' ' {
        return false;
      }
    }
    ok := true;
  }

  /** valid_filename: a name that ends in `.wav` cannot end in `.wav.part`. */
  method IsFilename(s: string) returns (ok: bool)
    ensures ok == ValidFilename(s)
  {
    if |s| < 5 || |s| > 180 || |s| < 11 || s[..11] != "recordings/" || s[|s| - 4..] != ".wav" {
      return false;
    }
    ok := IsSafe(s);
  }

  /** valid_calendar_date. */
  method IsDate(year: int, month: int, day: int) returns (ok: bool)
    ensures ok == ValidDate(year, month, day)
  {
    if year == 0 || month < 1 || month > 12 || day < 1 {
      return false;
    }
    var last := [31, 28, 31, 30, 31, 30, 31, 31, 30, 31, 30, 31][month - 1];
    if month == 2 && year % 4 == 0 && (year % 100 != 0 || year % 400 == 0) {
      last := last + 1;
    }
    ok := day <= last;
  }

  method IsStampShape(s: string) returns (ok: bool)
    ensures ok == StampShape(s)
  {
    if |s| != 25 || s[4] != '-' || s[7] != '-' || s[10] != 'T' || s[13] != ':' || s[16] != ':' || (s[19] != '+' && s[19] != '-') || s[22] != ':' {
      return false;
    }
    for i := 0 to 25
      invariant forall k :: 0 <= k < i && k !in {4, 7, 10, 13, 16, 19, 22} ==> IsDigit(s[k])
    {
      if i == 4 || i == 7 || i == 10 || i == 13 || i == 16 || i == 19 || i == 22 {
        continue;
      }
      if s[i] < '0' || s[i] > '9' {
        return false;
      }
    }
    ok := true;
  }

  /** device_manifest_is_valid_iso8601_offset. */
  method IsStamp(s: string) returns (ok: bool)
    ensures ok == ValidStamp(s)
  {
    hide StampShape, ValidDate;
    ok := IsStampShape(s);
    if !ok {
      return;
    }
    assert |s| == 25 by { StampLong(s); }
    var year := TwoDigits(s, 0) * 100 + TwoDigits(s, 2);
    ok := IsDate(year, TwoDigits(s, 5), TwoDigits(s, 8));
    if !ok || TwoDigits(s, 11) > 23 || TwoDigits(s, 14) > 59 || TwoDigits(s, 17) > 60 {
      return false;
    }
    ok := !(TwoDigits(s, 20) > 14 || TwoDigits(s, 23) > 59 || (TwoDigits(s, 20) == 14 && TwoDigits(s, 23) != 0));
  }

  lemma StampLong(s: string)
    requires StampShape(s)
    ensures |s| == 25
  {
  }

  /** The checks of one entry's fields. */
  method IsEntry(e: Entry) returns (ok: bool)
    ensures ok == EntryOk(e)
  {
    hide ValidUuid, ValidFilename, ValidStamp, ValidSha256, Safe;
    ok := IsUuid(e.id);
    if !ok {
      return;
    }
    ok := IsStamp(e.startedAt);
    if !ok || e.sizeBytes < 44 || e.sizeBytes >= UINT32 || (e.sizeBytes - 44) % 2 != 0 || e.durationMs != (e.sizeBytes - 44) / 32 {
      return false;
    }
    if e.state != "finalized" && e.state != "recovered" {
      return false;
    }
    if |e.firmware| == 0 || |e.firmware| > 32 {
      return false;
    }
    ok := IsSafe(e.firmware);
    if !ok {
      return;
    }
    ok := IsFilename(e.filename);
    if !ok {
      return;
    }
    ok := IsSha256(e.sha256);
  }
}
