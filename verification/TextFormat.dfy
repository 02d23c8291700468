/** Fixed text formats: literals with quoted strings and numbers between them. A format is
    printed with `Show` and recognised with `Match`; the two are inverse, and a format's text
    determines its values. */
module TextFormat {
  import Calendar
  import opened Bytes
  import opened ManifestText

  datatype Format = End | Lit(text: string, rest: Format) | Str(rest: Format) | Num(rest: Format)
  datatype Values = Nil | Text(s: string, tail: Values) | Number(n: nat, tail: Values)

  predicate Fits(fmt: Format, vals: Values) {
    match fmt
    case End => vals.Nil?
    case Lit(_, rest) => Fits(rest, vals)
    case Str(rest) => vals.Text? && Safe(vals.s) && Fits(rest, vals.tail)
    case Num(rest) => vals.Number? && vals.n < UINT32 && Fits(rest, vals.tail)
  }

  function Show(fmt: Format, vals: Values): string
    requires Fits(fmt, vals)
  {
    match fmt
    case End => ""
    case Lit(text, rest) => text + Show(rest, vals)
    case Str(rest) => Quoted(vals.s) + Show(rest, vals.tail)
    case Num(rest) => Dec(vals.n) + Show(rest, vals.tail)
  }

  predicate LitNext(fmt: Format) {
    fmt.Lit? && fmt.text != ""
  }

  predicate Printable(text: string) {
    forall i :: 0 <= i < |text| ==> text[i] >= ' '
  }

  /** The literals are printable, and every number is followed by one that does not start with a digit. */
  predicate WellFormed(fmt: Format) {
    match fmt
    case End => true
    case Lit(text, rest) => Printable(text) && WellFormed(rest)
    case Str(rest) => WellFormed(rest)
    case Num(rest) => LitNext(rest) && !Calendar.IsDigit(rest.text[0]) && WellFormed(rest)
  }

  lemma {:induction false} ShowPrintable(fmt: Format, vals: Values)
    requires Fits(fmt, vals) && WellFormed(fmt)
    ensures Printable(Show(fmt, vals))
    decreases fmt
  {
    match fmt {
      case End =>
      case Lit(_, rest) => ShowPrintable(rest, vals);
      case Str(rest) =>
        ShowPrintable(rest, vals.tail);
        assert Printable(Quoted(vals.s)) by {
          assert forall i :: 0 <= i < |vals.s| ==> SafeChar(vals.s[i]);
        }
      case Num(rest) =>
        ShowPrintable(rest, vals.tail);
        assert forall i :: 0 <= i < |Dec(vals.n)| ==> Calendar.IsDigit(Dec(vals.n)[i]);
    }
  }

  /** The text between `p` and `q` prints `fmt` with the values `vals`, read field by field. */
  predicate Printed(doc: string, p: nat, fmt: Format, vals: Values, q: nat)
    decreases fmt
  {
    match fmt
    case End => vals.Nil? && q == p <= |doc|
    case Lit(text, rest) => StartsAt(doc, p, text) && Printed(doc, p + |text|, rest, vals, q)
    case Str(rest) => vals.Text? && StringIs(doc, p, vals.s) && Printed(doc, p + |vals.s| + 2, rest, vals.tail, q)
    case Num(rest) => vals.Number? && NumberIs(doc, p, vals.n) && Printed(doc, p + |Dec(vals.n)|, rest, vals.tail, q)
  }

  /** A literal that does not start with a digit stops the number before it. */
  lemma NumberStops(doc: string, p: nat, rest: Format, vals: Values)
    requires LitNext(rest) && !Calendar.IsDigit(rest.text[0])
    requires Fits(rest, vals) && StartsAt(doc, p, Show(rest, vals))
    ensures !DigitAt(doc, p)
  {
    StartsAtIndex(doc, p, Show(rest, vals), 0);
  }

  /** Reading field by field recognises exactly the printed text. */
  lemma {:induction false} PrintedIsShown(doc: string, p: nat, fmt: Format, vals: Values, q: nat)
    requires WellFormed(fmt)
    ensures Printed(doc, p, fmt, vals, q) <==> Fits(fmt, vals) && StartsAt(doc, p, Show(fmt, vals)) && q == p + |Show(fmt, vals)|
    decreases fmt, 0
  {
    match fmt {
      case End =>
      case Lit(text, rest) =>
        PrintedIsShown(doc, p + |text|, rest, vals, q);
        if Fits(rest, vals) {
          StartsAtConcat(doc, p, text, Show(rest, vals));
        }
      case Str(rest) =>
        if vals.Text? {
          StringShown(doc, p, rest, vals, q);
        }
      case Num(rest) =>
        if vals.Number? {
          NumberShown(doc, p, rest, vals, q);
        }
    }
  }

  lemma {:induction false} StringShown(doc: string, p: nat, rest: Format, vals: Values, q: nat)
    requires WellFormed(Str(rest)) && vals.Text?
    ensures Printed(doc, p, Str(rest), vals, q)
        <==> Fits(Str(rest), vals) && StartsAt(doc, p, Show(Str(rest), vals)) && q == p + |Show(Str(rest), vals)|
    decreases rest, 1
  {
    PrintedIsShown(doc, p + |vals.s| + 2, rest, vals.tail, q);
    if Fits(rest, vals.tail) {
      StartsAtConcat(doc, p, Quoted(vals.s), Show(rest, vals.tail));
    }
  }

  lemma {:induction false} NumberShown(doc: string, p: nat, rest: Format, vals: Values, q: nat)
    requires WellFormed(Num(rest)) && vals.Number?
    ensures Printed(doc, p, Num(rest), vals, q)
        <==> Fits(Num(rest), vals) && StartsAt(doc, p, Show(Num(rest), vals)) && q == p + |Show(Num(rest), vals)|
    decreases rest, 1
  {
    var d := Dec(vals.n);
    PrintedIsShown(doc, p + |d|, rest, vals.tail, q);
    if Fits(rest, vals.tail) {
      StartsAtConcat(doc, p, d, Show(rest, vals.tail));
      if StartsAt(doc, p + |d|, Show(rest, vals.tail)) {
        NumberStops(doc, p + |d|, rest, vals.tail);
      }
    }
  }

  lemma {:induction false} PrintedForward(doc: string, p: nat, fmt: Format, vals: Values, q: nat)
    requires Printed(doc, p, fmt, vals, q)
    ensures p <= q <= |doc|
    decreases fmt
  {
    match fmt {
      case End =>
      case Lit(text, rest) => PrintedForward(doc, p + |text|, rest, vals, q);
      case Str(rest) => PrintedForward(doc, p + |vals.s| + 2, rest, vals.tail, q);
      case Num(rest) => PrintedForward(doc, p + |Dec(vals.n)|, rest, vals.tail, q);
    }
  }

  /** The text at a position determines the values, and where they end. */
  lemma {:induction false} PrintedUnique(doc: string, p: nat, fmt: Format, vals: Values, q: nat, vals': Values, q': nat)
    requires Printed(doc, p, fmt, vals, q) && Printed(doc, p, fmt, vals', q')
    ensures vals == vals' && q == q'
    decreases fmt, 0
  {
    match fmt {
      case End =>
      case Lit(text, rest) => PrintedUnique(doc, p + |text|, rest, vals, q, vals', q');
      case Str(rest) => StringUnique(doc, p, rest, vals, q, vals', q');
      case Num(rest) => NumUnique(doc, p, rest, vals, q, vals', q');
    }
  }

  lemma {:induction false} StringUnique(doc: string, p: nat, rest: Format, vals: Values, q: nat, vals': Values, q': nat)
    requires Printed(doc, p, Str(rest), vals, q) && Printed(doc, p, Str(rest), vals', q')
    ensures vals == vals' && q == q'
    decreases rest, 1
  {
    QuotedUnique(doc, p, vals.s, vals'.s);
    PrintedUnique(doc, p + |vals.s| + 2, rest, vals.tail, q, vals'.tail, q');
  }

  lemma {:induction false} NumUnique(doc: string, p: nat, rest: Format, vals: Values, q: nat, vals': Values, q': nat)
    requires Printed(doc, p, Num(rest), vals, q) && Printed(doc, p, Num(rest), vals', q')
    ensures vals == vals' && q == q'
    decreases rest, 1
  {
    NumberUnique(doc, p, vals.n, vals'.n);
    PrintedUnique(doc, p + |Dec(vals.n)|, rest, vals.tail, q, vals'.tail, q');
  }

  /** Recognise a format at `p`, one field after the other. */
  method Match(doc: string, p: nat, fmt: Format) returns (ok: bool, vals: Values, q: nat)
    ensures ok ==> Printed(doc, p, fmt, vals, q)
    ensures !ok ==> forall v, e :: !Printed(doc, p, fmt, v, e)
    decreases fmt, 0
  {
    match fmt {
      case End => ok, vals, q := p <= |doc|, Nil, p;
      case Lit(text, rest) =>
        if StartsAt(doc, p, text) {
          ok, vals, q := Match(doc, p + |text|, rest);
        } else {
          ok, vals, q := false, Nil, p;
        }
      case Str(rest) => ok, vals, q := MatchString(doc, p, rest);
      case Num(rest) => ok, vals, q := MatchNumber(doc, p, rest);
    }
  }

  method MatchString(doc: string, p: nat, rest: Format) returns (ok: bool, vals: Values, q: nat)
    ensures ok ==> Printed(doc, p, Str(rest), vals, q)
    ensures !ok ==> forall v, e :: !Printed(doc, p, Str(rest), v, e)
    decreases rest, 1
  {
    var found, v, next := ReadString(doc, p);
    if !found {
      return false, Nil, p;
    }
    ok, vals, q := Match(doc, next, rest);
    StringOnly(doc, p, v);
    vals := Text(v, vals);
  }

  method MatchNumber(doc: string, p: nat, rest: Format) returns (ok: bool, vals: Values, q: nat)
    ensures ok ==> Printed(doc, p, Num(rest), vals, q)
    ensures !ok ==> forall v, e :: !Printed(doc, p, Num(rest), v, e)
    decreases rest, 1
  {
    var found, n, next := ReadNumber(doc, p);
    if !found {
      return false, Nil, p;
    }
    ok, vals, q := Match(doc, next, rest);
    NumberOnly(doc, p, n);
    vals := Number(n, vals);
  }

  lemma StringOnly(doc: string, p: nat, v: string)
    requires StringIs(doc, p, v)
    ensures forall w :: StringIs(doc, p, w) ==> w == v
  {
    forall w | StringIs(doc, p, w) ensures w == v {
      QuotedUnique(doc, p, w, v);
    }
  }

  lemma NumberOnly(doc: string, p: nat, n: nat)
    requires NumberIs(doc, p, n)
    ensures forall m: nat :: NumberIs(doc, p, m) ==> m == n
  {
    forall m: nat | NumberIs(doc, p, m) ensures m == n {
      NumberUnique(doc, p, m, n);
    }
  }

  // ----- Where a key can stand in a printed format -----

  /** The quoted name stands at `i`, followed by a colon if `colon`. */
  predicate KeyAt(doc: string, i: nat, name: string, colon: bool) {
    StartsAt(doc, i, Quoted(name)) && (colon ==> StartsAt(doc, i + |name| + 2, ":"))
  }

  predicate HasText(vals: Values, name: string) {
    match vals
    case Nil => false
    case Text(s, tail) => s == name || HasText(tail, name)
    case Number(_, tail) => HasText(tail, name)
  }

  /** A quote in the literal is followed, in the literal, by a character other than `c`. */
  predicate LitKeyless(text: string, c: char) {
    forall j :: 0 <= j < |text| && text[j] == '"' ==> j + 1 < |text| && text[j + 1] != c
  }

  /** No literal holds a quote followed by `c`, and every string is followed by `,` or `}`. */
  predicate Keyless(fmt: Format, c: char) {
    match fmt
    case End => true
    case Lit(text, rest) => LitKeyless(text, c) && Keyless(rest, c)
    case Str(rest) => LitNext(rest) && rest.text[0] in {',', '}'} && Keyless(rest, c)
    case Num(rest) => Keyless(rest, c)
  }

  /** A name that can be searched for as a key. */
  predicate KeyName(name: string) {
    name != "" && Safe(name) && name[0] !in {',', '}'}
  }

  /** A key does not stand inside the printed text of a format whose literals do not hold it,
      unless it has no colon and one of the printed strings is its name. */
  lemma {:induction false} NoKey(fmt: Format, vals: Values, doc: string, p: nat, q: nat, i: nat, name: string, colon: bool)
    requires Printed(doc, p, fmt, vals, q) && p <= i < q
    requires KeyName(name) && Keyless(fmt, name[0]) && (colon || !HasText(vals, name))
    ensures !KeyAt(doc, i, name, colon)
    decreases fmt
  {
    match fmt {
      case End =>
      case Lit(text, rest) =>
        if i < p + |text| {
          KeyInLit(doc, p, i, text, name, colon);
        } else {
          NoKey(rest, vals, doc, p + |text|, q, i, name, colon);
        }
      case Str(rest) =>
        var next := p + |vals.s| + 2;
        if i < next {
          StartsAtIndex(doc, next, rest.text, 0);
          KeyInString(doc, p, i, vals.s, name, colon);
        } else {
          NoKey(rest, vals.tail, doc, next, q, i, name, colon);
        }
      case Num(rest) =>
        var d := Dec(vals.n);
        if i < p + |d| {
          StartsAtIndex(doc, p, d, i - p);
          NoQuoteNoKey(doc, i, name, colon);
        } else {
          NoKey(rest, vals.tail, doc, p + |d|, q, i, name, colon);
        }
    }
  }

  lemma NoQuoteNoKey(doc: string, i: nat, name: string, colon: bool)
    requires i < |doc| && (doc[i] != '"' || (i + 1 < |doc| && name != "" && doc[i + 1] != name[0]))
    ensures !KeyAt(doc, i, name, colon)
  {
    if KeyAt(doc, i, name, colon) {
      StartsAtIndex(doc, i, Quoted(name), 0);
      StartsAtIndex(doc, i, Quoted(name), 1);
    }
  }

  lemma KeyInLit(doc: string, p: nat, i: nat, text: string, name: string, colon: bool)
    requires StartsAt(doc, p, text) && p <= i < p + |text| && name != "" && LitKeyless(text, name[0])
    ensures !KeyAt(doc, i, name, colon)
  {
    StartsAtIndex(doc, p, text, i - p);
    if text[i - p] == '"' {
      StartsAtIndex(doc, p, text, i - p + 1);
    }
    NoQuoteNoKey(doc, i, name, colon);
  }

  lemma KeyInString(doc: string, p: nat, i: nat, v: string, name: string, colon: bool)
    requires StringIs(doc, p, v) && p <= i < p + |v| + 2 && KeyName(name)
    requires p + |v| + 2 < |doc| && doc[p + |v| + 2] in {',', '}'}
    requires colon || v != name
    ensures !KeyAt(doc, i, name, colon)
  {
    QuotedChars(doc, p, v);
    if i > p {
      NoQuoteNoKey(doc, i, name, colon);
    } else if KeyAt(doc, p, name, colon) {
      QuotedUnique(doc, p, v, name);
    }
  }
}
