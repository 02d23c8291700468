/** Texts written one after the other with a comma between neighbours. */
module Joining {
  import opened ManifestText

  function Comma(k: nat): string {
    if k == 0 then "" else ","
  }

  /** The first `n` texts. */
  function Joined(ts: seq<string>, n: nat): string
    requires n <= |ts|
  {
    if n == 0 then "" else Joined(ts, n - 1) + (Comma(n - 1) + ts[n - 1])
  }

  /** Where the first `n` texts end, and where text `k` starts, when the first one starts at `p`. */
  function Ends(p: nat, ts: seq<string>, n: nat): nat
    requires n <= |ts|
  {
    p + |Joined(ts, n)|
  }

  function At(p: nat, ts: seq<string>, k: nat): nat
    requires k <= |ts|
  {
    Ends(p, ts, k) + |Comma(k)|
  }

  lemma {:induction false} JoinedGrows(ts: seq<string>, k: nat, n: nat)
    requires k <= n <= |ts|
    ensures |Joined(ts, k)| <= |Joined(ts, n)|
  {
    if k < n {
      JoinedGrows(ts, k, n - 1);
    }
  }

  lemma {:induction false} SamePrefix(ts: seq<string>, us: seq<string>, n: nat)
    requires n <= |ts| && n <= |us| && (forall i :: 0 <= i < n ==> ts[i] == us[i])
    ensures Joined(ts, n) == Joined(us, n)
  {
    if n > 0 {
      SamePrefix(ts, us, n - 1);
    }
  }

  /** A joined text stands where its front stands, followed by a comma and its last part. */
  lemma LastStands(doc: string, p: nat, ts: seq<string>, k: nat)
    requires k < |ts|
    ensures StartsAt(doc, p, Joined(ts, k + 1)) <==>
        StartsAt(doc, p, Joined(ts, k)) && StartsAt(doc, Ends(p, ts, k), Comma(k)) && StartsAt(doc, At(p, ts, k), ts[k])
    ensures Ends(p, ts, k + 1) == At(p, ts, k) + |ts[k]|
  {
    assert Joined(ts, k + 1) == Joined(ts, k) + (Comma(k) + ts[k]);
    hide Joined, Comma;
    StartsAtThree(doc, p, Joined(ts, k), Comma(k), ts[k]);
  }

  /** Each part of a joined text stands at its place, after its comma. */
  lemma {:induction false} PartStands(doc: string, p: nat, ts: seq<string>, n: nat, k: nat)
    requires k < n <= |ts| && StartsAt(doc, p, Joined(ts, n))
    ensures StartsAt(doc, p, Joined(ts, k)) && StartsAt(doc, Ends(p, ts, k), Comma(k)) && StartsAt(doc, At(p, ts, k), ts[k])
    ensures Ends(p, ts, k + 1) == At(p, ts, k) + |ts[k]| <= Ends(p, ts, n)
    decreases n
  {
    var m := n - 1;
    assert StartsAt(doc, p, Joined(ts, m + 1));
    LastStands(doc, p, ts, m);
    if k < m {
      PartStands(doc, p, ts, m, k);
    }
  }

  /** A position inside a joined text lies in a part or on the comma before it. */
  lemma {:induction false} PartAt(doc: string, p: nat, ts: seq<string>, n: nat, h: nat) returns (k: nat)
    requires n <= |ts| && StartsAt(doc, p, Joined(ts, n)) && p <= h < Ends(p, ts, n)
    ensures k < n && (At(p, ts, k) <= h < Ends(p, ts, k + 1) || (At(p, ts, k) == h + 1 && doc[h] == ','))
    decreases n
  {
    k := n - 1;
    LastStands(doc, p, ts, k);
    if h < Ends(p, ts, k) {
      k := PartAt(doc, p, ts, k, h);
    } else if h < At(p, ts, k) {
      StartsAtIndex(doc, Ends(p, ts, k), Comma(k), 0);
    }
  }
}
