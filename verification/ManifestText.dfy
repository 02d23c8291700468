/** The text layer of the device manifest: searching, quoted strings and bounded decimal numbers.

    A byte of the card is a `char`; no check of the manifest depends on bytes above 0x7f. */
module ManifestText {
  import Calendar
  import opened Wrappers
  import opened Bytes

  /** `s` stands in `doc` at position `p`. */
  predicate StartsAt(doc: string, p: nat, s: string) {
    p + |s| <= |doc| && doc[p..p + |s|] == s
  }

  lemma StartsAtIndex(doc: string, p: nat, s: string, k: nat)
    requires StartsAt(doc, p, s) && k < |s|
    ensures doc[p + k] == s[k]
  {
    assert doc[p..p + |s|][k] == s[k];
  }

  lemma StartsAtConcat(doc: string, p: nat, s: string, t: string)
    ensures StartsAt(doc, p, s + t) <==> StartsAt(doc, p, s) && StartsAt(doc, p + |s|, t)
  {
    if p + |s| + |t| <= |doc| {
      var u, v := doc[p..p + |s|], doc[p + |s|..p + |s| + |t|];
      assert doc[p..p + |s + t|] == u + v;
      assert u == (u + v)[..|s|] && v == (u + v)[|s|..] && s == (s + t)[..|s|] && t == (s + t)[|s|..];
    }
  }

  lemma StartsAtThree(doc: string, p: nat, s: string, t: string, u: string)
    ensures StartsAt(doc, p, s + (t + u)) <==> StartsAt(doc, p, s) && StartsAt(doc, p + |s|, t) && StartsAt(doc, p + |s| + |t|, u)
  {
    StartsAtConcat(doc, p, s, t + u);
    StartsAtConcat(doc, p + |s|, t, u);
  }

  // ----- Searching -----

  /** The first position at or after `from` where `needle` stands: memfind. */
  method Find(doc: string, from: nat, needle: string) returns (at: Option<nat>)
    requires from <= |doc|
    ensures at.Some? ==> from <= at.value && StartsAt(doc, at.value, needle)
    ensures needle != "" ==> forall k: nat :: from <= k < (if at.Some? then at.value else |doc|) ==> !StartsAt(doc, k, needle)
    ensures needle == "" ==> at.None?
  {
    if needle == "" || |doc| - from < |needle| {
      return None;
    }
    var i := from;
    while i + |needle| <= |doc|
      invariant from <= i
      invariant forall k: nat :: from <= k < i ==> !StartsAt(doc, k, needle)
    {
      if doc[i..i + |needle|] == needle {
        return Some(i);
      }
      i := i + 1;
    }
    return None;
  }

  // ----- Quoted strings -----

  predicate SafeChar(c: char) {
    c != '"' && c != '\\' && c >= ' '
  }

  predicate Safe(s: string) {
    forall i :: 0 <= i < |s| ==> SafeChar(s[i])
  }

  function Quoted(v: string): string {
    "\"" + v + "\""
  }

  lemma QuotedChars(doc: string, p: nat, v: string)
    requires Safe(v) && StartsAt(doc, p, Quoted(v))
    ensures doc[p] == '"' && doc[p + 1 + |v|] == '"'
    ensures forall k :: p < k <= p + |v| ==> SafeChar(doc[k])
    ensures doc[p + 1..p + 1 + |v|] == v
  {
    var t := doc[p..p + |v| + 2];
    assert t[0] == '"' && t[|v| + 1] == '"' && t[1..|v| + 1] == v;
    forall k | p < k <= p + |v| ensures SafeChar(doc[k]) {
      assert doc[k] == t[1..|v| + 1][k - p - 1];
    }
  }

  lemma QuotedUnique(doc: string, p: nat, v: string, w: string)
    requires Safe(v) && Safe(w) && StartsAt(doc, p, Quoted(v)) && StartsAt(doc, p, Quoted(w))
    ensures v == w
  {
    QuotedChars(doc, p, v);
    QuotedChars(doc, p, w);
  }

  /** The safe string `v` stands at `p`, quoted. */
  predicate StringIs(doc: string, p: nat, v: string) {
    Safe(v) && StartsAt(doc, p, Quoted(v))
  }

  /** A safe quoted string stands at `p`. */
  ghost predicate StringHere(doc: string, p: nat) {
    exists v :: StringIs(doc, p, v)
  }

  ghost function StringAt(doc: string, p: nat): (v: string)
    requires StringHere(doc, p)
    ensures StringIs(doc, p, v)
  {
    var v :| StringIs(doc, p, v);
    v
  }

  /** manifest_string: read a quoted string that needs no escapes. */
  method ReadString(doc: string, p: nat) returns (ok: bool, v: string, q: nat)
    ensures ok <==> StringHere(doc, p)
    ensures ok ==> v == StringAt(doc, p) && q == p + |v| + 2
  {
    if p >= |doc| || doc[p] != '"' {
      if StringHere(doc, p) {
        StartsAtIndex(doc, p, Quoted(StringAt(doc, p)), 0);
      }
      return false, "", p;
    }
    var i := p + 1;
    while i < |doc| && doc[i] != '"'
      invariant p + 1 <= i <= |doc|
      invariant forall k :: p < k < i ==> SafeChar(doc[k])
    {
      if doc[i] == '\\' || doc[i] < ' ' {
        UnsafeString(doc, p, i);
        return false, "", p;
      }
      i := i + 1;
    }
    if i == |doc| {
      SafeToEnd(doc, p);
      return false, "", p;
    }
    v := doc[p + 1..i];
    assert doc[p..i + 1] == Quoted(v);
    assert StringIs(doc, p, v);
    QuotedUnique(doc, p, v, StringAt(doc, p));
    return true, v, i + 1;
  }

  lemma UnsafeString(doc: string, p: nat, i: nat)
    requires p < i < |doc| && (forall k :: p < k < i ==> SafeChar(doc[k])) && !SafeChar(doc[i]) && doc[i] != '"'
    ensures !StringHere(doc, p)
  {
    if StringHere(doc, p) {
      QuotedChars(doc, p, StringAt(doc, p));
    }
  }

  lemma SafeToEnd(doc: string, p: nat)
    requires p < |doc| && (forall k :: p < k < |doc| ==> SafeChar(doc[k]))
    ensures !StringHere(doc, p)
  {
    if StringHere(doc, p) {
      QuotedChars(doc, p, StringAt(doc, p));
    }
  }

  // ----- Numbers -----

  function Dec(n: nat): (s: string)
    ensures |s| > 0 && (forall i :: 0 <= i < |s| ==> Calendar.IsDigit(s[i])) && (|s| > 1 ==> s[0] != '0')
  {
    if n < 10 then [('0' as int + n) as char] else Dec(n / 10) + [('0' as int + n % 10) as char]
  }

  function Digits(s: string): (n: nat)
    requires forall i :: 0 <= i < |s| ==> Calendar.IsDigit(s[i])
  {
    if s == "" then 0
    else
      assert Calendar.IsDigit(s[|s| - 1]);
      10 * Digits(s[..|s| - 1]) + (s[|s| - 1] as int - '0' as int)
  }

  lemma {:induction false} DigitsOfDec(n: nat)
    ensures Digits(Dec(n)) == n
  {
    if n >= 10 {
      DigitsOfDec(n / 10);
      assert Dec(n)[..|Dec(n)| - 1] == Dec(n / 10);
    } else {
      assert Dec(n)[..0] == "";
    }
  }

  lemma {:induction false} DecOfDigits(s: string)
    requires |s| > 0 && (forall i :: 0 <= i < |s| ==> Calendar.IsDigit(s[i])) && (|s| > 1 ==> s[0] != '0')
    ensures Dec(Digits(s)) == s
    ensures s[0] != '0' ==> Digits(s) > 0
  {
    if |s| == 1 {
      assert s[..0] == "";
    } else {
      var front, last := s[..|s| - 1], s[|s| - 1];
      DecOfDigits(front);
      assert s == front + [last];
      LastDigit(Digits(front), last);
    }
  }

  lemma LastDigit(n: nat, c: char)
    requires n > 0 && Calendar.IsDigit(c)
    ensures Dec(10 * n + (c as int - '0' as int)) == Dec(n) + [c]
  {
    var m := 10 * n + (c as int - '0' as int);
    assert m / 10 == n && m % 10 == c as int - '0' as int;
  }

  lemma {:induction false} DigitsGrow(s: string, i: nat)
    requires (forall k :: 0 <= k < |s| ==> Calendar.IsDigit(s[k])) && i <= |s|
    ensures Digits(s[..i]) <= Digits(s)
    decreases |s|
  {
    if i < |s| {
      DigitsGrow(s[..|s| - 1], i);
      assert s[..|s| - 1][..i] == s[..i];
    } else {
      assert s[..i] == s;
    }
  }

  predicate DigitAt(doc: string, p: nat) {
    p < |doc| && Calendar.IsDigit(doc[p])
  }

  /** The number `n` is written at `p`, and no further digit follows it. */
  predicate NumberIs(doc: string, p: nat, n: nat) {
    n < UINT32 && StartsAt(doc, p, Dec(n)) && !DigitAt(doc, p + |Dec(n)|)
  }

  ghost predicate NumberHere(doc: string, p: nat) {
    exists n: nat :: NumberIs(doc, p, n)
  }

  ghost function NumberAt(doc: string, p: nat): (n: nat)
    requires NumberHere(doc, p)
    ensures NumberIs(doc, p, n)
  {
    var n: nat :| NumberIs(doc, p, n);
    n
  }

  /** A maximal run of digits determines the number written there. */
  lemma NumberRun(doc: string, p: nat, n: nat, q: nat)
    requires StartsAt(doc, p, Dec(n)) && !DigitAt(doc, p + |Dec(n)|)
    requires p <= q <= |doc| && (forall k :: p <= k < q ==> Calendar.IsDigit(doc[k])) && !DigitAt(doc, q)
    ensures q == p + |Dec(n)| && doc[p..q] == Dec(n) && Digits(doc[p..q]) == n
  {
    forall k | p <= k < p + |Dec(n)| ensures Calendar.IsDigit(doc[k]) {
      StartsAtIndex(doc, p, Dec(n), k - p);
    }
    DigitsOfDec(n);
  }

  lemma NumberUnique(doc: string, p: nat, n: nat, m: nat)
    requires NumberIs(doc, p, n) && NumberIs(doc, p, m)
    ensures n == m
  {
    forall k | p <= k < p + |Dec(n)| ensures Calendar.IsDigit(doc[k]) {
      StartsAtIndex(doc, p, Dec(n), k - p);
    }
    NumberRun(doc, p, m, p + |Dec(n)|);
    DigitsOfDec(n);
  }

  lemma LeadingZero(doc: string, p: nat)
    requires p + 1 < |doc| && doc[p] == '0' && Calendar.IsDigit(doc[p + 1])
    ensures !NumberHere(doc, p)
  {
    forall n: nat | StartsAt(doc, p, Dec(n)) ensures DigitAt(doc, p + |Dec(n)|) {
      StartsAtIndex(doc, p, Dec(n), 0);
    }
  }

  lemma NumberTooBig(doc: string, p: nat, i: nat, end: nat)
    requires p <= i <= end <= |doc| && (forall k :: p <= k < end ==> Calendar.IsDigit(doc[k])) && !DigitAt(doc, end)
    requires Digits(doc[p..i]) >= UINT32
    ensures !NumberHere(doc, p)
  {
    DigitsGrow(doc[p..end], i - p);
    assert doc[p..end][..i - p] == doc[p..i];
    if NumberHere(doc, p) {
      NumberRun(doc, p, NumberAt(doc, p), end);
    }
  }

  lemma NumberFound(doc: string, p: nat, i: nat)
    requires p < i <= |doc| && (forall k :: p <= k < i ==> Calendar.IsDigit(doc[k])) && !DigitAt(doc, i)
    requires Digits(doc[p..i]) < UINT32 && (doc[p] != '0' || i == p + 1)
    ensures NumberHere(doc, p) && NumberAt(doc, p) == Digits(doc[p..i]) && i == p + |Dec(NumberAt(doc, p))|
  {
    DecOfDigits(doc[p..i]);
    assert NumberIs(doc, p, Digits(doc[p..i]));
    NumberUnique(doc, p, Digits(doc[p..i]), NumberAt(doc, p));
  }

  /** manifest_uint32: read a canonical decimal number below 2^32. */
  method ReadNumber(doc: string, p: nat) returns (ok: bool, n: nat, q: nat)
    ensures ok <==> NumberHere(doc, p)
    ensures ok ==> n == NumberAt(doc, p) && q == p + |Dec(n)|
  {
    if p >= |doc| || !Calendar.IsDigit(doc[p]) {
      if NumberHere(doc, p) {
        StartsAtIndex(doc, p, Dec(NumberAt(doc, p)), 0);
      }
      return false, 0, p;
    }
    ghost var end := RunEnd(doc, p);
    if doc[p] == '0' && p + 1 < |doc| && Calendar.IsDigit(doc[p + 1]) {
      LeadingZero(doc, p);
      return false, 0, p;
    }
    var i := p;
    n := 0;
    while i < |doc| && Calendar.IsDigit(doc[i])
      invariant p <= i <= end && n < UINT32
      invariant n == Digits(doc[p..i])
    {
      var digit := doc[i] as int - '0' as int;
      assert doc[p..i + 1][..i - p] == doc[p..i];
      if n > (UINT32 - 1 - digit) / 10 {
        NumberTooBig(doc, p, i + 1, end);
        return false, 0, p;
      }
      n := n * 10 + digit;
      i := i + 1;
    }
    NumberFound(doc, p, i);
    return true, n, i;
  }

  /** The end of the run of digits that starts at `p`. */
  ghost function RunEnd(doc: string, p: nat): (q: nat)
    requires p <= |doc|
    ensures p <= q <= |doc| && (forall k :: p <= k < q ==> Calendar.IsDigit(doc[k])) && !DigitAt(doc, q)
    decreases |doc| - p
  {
    if p < |doc| && Calendar.IsDigit(doc[p]) then RunEnd(doc, p + 1) else p
  }
}
