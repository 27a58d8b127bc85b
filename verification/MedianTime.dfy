/** Median-time-past over the last eleven headers (src/chain/consensus.ts 306-324). */
module MedianTime {
  import opened BlockCodec
  import opened Genesis

  // ------------------------------------------------------------------
  // Sorting and ranks
  // ------------------------------------------------------------------

  function InsertSorted(x: nat, s: seq<nat>): seq<nat> {
    if s == [] || x <= s[0] then [x] + s else [s[0]] + InsertSorted(x, s[1..])
  }

  /** `ts.sort((a, b) => a - b)` */
  function SortNumbers(s: seq<nat>): (r: seq<nat>)
    ensures |r| == |s|
  {
    if s == [] then [] else
      var rest := SortNumbers(s[1..]);
      InsertLength(s[0], rest);
      InsertSorted(s[0], rest)
  }

  lemma {:induction false} InsertLength(x: nat, s: seq<nat>)
    ensures |InsertSorted(x, s)| == |s| + 1
  {
    if s != [] && x > s[0] {
      InsertLength(x, s[1..]);
    }
  }

  predicate Ascending(s: seq<nat>) {
    forall i, j :: 0 <= i < j < |s| ==> s[i] <= s[j]
  }

  /** How many elements are below `v`. */
  function CountBelow(s: seq<nat>, v: int): nat {
    if s == [] then 0 else (if s[0] < v then 1 else 0) + CountBelow(s[1..], v)
  }

  lemma {:induction false} InsertBelow(x: nat, s: seq<nat>, v: int)
    ensures CountBelow(InsertSorted(x, s), v) == CountBelow(s, v) + (if x < v then 1 else 0)
  {
    if s == [] || x <= s[0] {
      assert ([x] + s)[1..] == s;
    } else {
      InsertBelow(x, s[1..], v);
      assert ([s[0]] + InsertSorted(x, s[1..]))[1..] == InsertSorted(x, s[1..]);
    }
  }

  lemma {:induction false} InsertAscending(x: nat, s: seq<nat>)
    requires Ascending(s)
    ensures Ascending(InsertSorted(x, s))
    ensures forall y :: y in InsertSorted(x, s) <==> y == x || y in s
  {
    if s == [] || x <= s[0] {
    } else {
      InsertAscending(x, s[1..]);
      var r := InsertSorted(x, s[1..]);
      assert s == [s[0]] + s[1..];
      forall i, j | 0 <= i < j < |r| + 1 ensures ([s[0]] + r)[i] <= ([s[0]] + r)[j] {
        assert r[j - 1] in r;
      }
    }
  }

  /** Sorting keeps every count and orders the elements. */
  lemma {:induction false} SortSorts(s: seq<nat>)
    ensures Ascending(SortNumbers(s))
    ensures forall v :: CountBelow(SortNumbers(s), v) == CountBelow(s, v)
    ensures forall y :: y in SortNumbers(s) <==> y in s
  {
    if s != [] {
      var rest := SortNumbers(s[1..]);
      SortSorts(s[1..]);
      InsertAscending(s[0], rest);
      forall v ensures CountBelow(SortNumbers(s), v) == CountBelow(s, v) {
        InsertBelow(s[0], rest, v);
      }
      assert s == [s[0]] + s[1..];
    }
  }

  /** In a sorted list the element at index `i` has at most `i` elements below it and more than `i` not above it. */
  lemma {:induction false} RankOfSorted(s: seq<nat>, i: nat)
    requires Ascending(s) && i < |s|
    ensures CountBelow(s, s[i]) <= i < CountBelow(s, s[i] + 1)
  {
    if i == 0 {
      NoneBelow(s, s[0]);
    } else {
      RankOfSorted(s[1..], i - 1);
    }
  }

  lemma {:induction false} NoneBelow(s: seq<nat>, v: nat)
    requires forall i :: 0 <= i < |s| ==> v <= s[i]
    ensures CountBelow(s, v) == 0
  {
    if s != [] {
      NoneBelow(s[1..], v);
    }
  }

  lemma {:induction false} BelowMonotone(s: seq<nat>, v: int, w: int)
    requires v <= w
    ensures CountBelow(s, v) <= CountBelow(s, w)
  {
    if s != [] {
      BelowMonotone(s[1..], v, w);
    }
  }

  lemma {:induction false} BelowAppend(s: seq<nat>, x: nat, v: int)
    ensures CountBelow(s + [x], v) == CountBelow(s, v) + (if x < v then 1 else 0)
  {
    if s == [] {
      assert [x][1..] == [];
    } else {
      BelowAppend(s[1..], x, v);
      assert (s + [x])[1..] == s[1..] + [x];
    }
  }

  // ------------------------------------------------------------------
  // The median
  // ------------------------------------------------------------------

  function Median(s: seq<nat>): nat
    requires s != []
  {
    SortNumbers(s)[|s| / 2]
  }

  /** The median is an element with at most half the others below it and more than half not above it. */
  lemma MedianRank(s: seq<nat>)
    requires s != []
    ensures CountBelow(s, Median(s)) <= |s| / 2 < CountBelow(s, Median(s) + 1)
    ensures Median(s) in s
  {
    hide SortNumbers, CountBelow, Ascending;
    SortSorts(s);
    var sorted := SortNumbers(s);
    RankOfSorted(sorted, |s| / 2);
    assert CountBelow(sorted, Median(s)) == CountBelow(s, Median(s));
    assert CountBelow(sorted, Median(s) + 1) == CountBelow(s, Median(s) + 1);
    assert Median(s) in sorted;
  }

  function Times(hs: seq<Header>): (r: seq<nat>)
    ensures |r| == |hs|
  {
    if hs == [] then [] else Times(hs[..|hs| - 1]) + [hs[|hs| - 1].timestamp]
  }

  /** The most recent headers that count. */
  function Window(hs: seq<Header>): seq<Header> {
    if |hs| <= MTP_WINDOW then hs else hs[|hs| - MTP_WINDOW..]
  }

  function MedianTimePast(hs: seq<Header>): nat {
    if hs == [] then 0 else Median(Times(Window(hs)))
  }

  method MedianTimePastLoop(hs: seq<Header>) returns (mtp: nat)
    ensures mtp == MedianTimePast(hs)
  {
    if |hs| == 0 {
      return 0;
    }
    hide SortNumbers, Times;
    var start: nat := if |hs| > MTP_WINDOW then |hs| - MTP_WINDOW else 0;
    var ts: seq<nat> := [];
    NoTimes(hs, start);
    for i := start to |hs|
      invariant ts == Times(hs[start..i])
    {
      TimesExtend(hs, start, i);
      ts := ts + [hs[i].timestamp];
    }
    assert hs[start..|hs|] == Window(hs);
    mtp := SortNumbers(ts)[|ts| / 2];
  }

  lemma NoTimes(hs: seq<Header>, start: nat)
    requires start <= |hs|
    ensures Times(hs[start..start]) == []
  {
  }

  lemma TimesExtend(hs: seq<Header>, start: nat, i: nat)
    requires start <= i < |hs|
    ensures Times(hs[start..i + 1]) == Times(hs[start..i]) + [hs[i].timestamp]
  {
    assert hs[start..i + 1] == hs[start..i] + [hs[i]];
    TimesAppend(hs[start..i], hs[i]);
  }

  lemma {:induction false} TimesDropFirst(hs: seq<Header>)
    requires hs != []
    ensures Times(hs)[0] == hs[0].timestamp && Times(hs[1..]) == Times(hs)[1..]
    decreases |hs|
  {
    if |hs| > 1 {
      TimesDropFirst(hs[..|hs| - 1]);
      assert hs[1..][..|hs| - 2] == hs[..|hs| - 1][1..];
      assert Times(hs)[1..] == Times(hs[..|hs| - 1])[1..] + [hs[|hs| - 1].timestamp];
    }
  }

  lemma TimesAppend(hs: seq<Header>, h: Header)
    ensures Times(hs + [h]) == Times(hs) + [h.timestamp]
  {
    assert (hs + [h])[..|hs|] == hs;
  }

  /** A window's median cannot fall when a larger time arrives, whether or not the oldest one leaves. */
  lemma MedianRises(s: seq<nat>, t: seq<nat>, x: nat)
    requires s != [] && x > Median(s) && (t == s + [x] || t == s[1..] + [x])
    ensures Median(s) <= Median(t)
  {
    var m, m' := Median(s), Median(t);
    MedianRank(s);
    MedianRank(t);
    BelowAppend(s, x, m);
    BelowAppend(s[1..], x, m);
    assert CountBelow(t, m) <= |s| / 2 <= |t| / 2;
    if m' < m {
      BelowMonotone(t, m' + 1, m);
      assert false;
    }
  }

  /**
   * The rule every added block obeys (its time exceeds its parent's
   * median-time-past, once that is positive) makes median-time-past never
   * decrease along a branch.
   */
  lemma MedianTimePastNeverFalls(hs: seq<Header>, h: Header)
    requires MedianTimePast(hs) > 0 ==> h.timestamp > MedianTimePast(hs)
    ensures MedianTimePast(hs) <= MedianTimePast(hs + [h])
  {
    if hs != [] && MedianTimePast(hs) > 0 {
      var w, v := Window(hs), Window(hs + [h]);
      if |hs| < MTP_WINDOW {
        TimesAppend(hs, h);
      } else {
        assert v == w[1..] + [h];
        TimesAppend(w[1..], h);
        TimesDropFirst(w);
      }
      MedianRises(Times(w), Times(v), h.timestamp);
    }
  }

  /** `scriptsActiveForMtp` */
  predicate ScriptsActiveForMtp(mtp: nat) { mtp >= FORK1_ACTIVATION_TIME }

  /** Script activation never reverts along a branch. */
  lemma ActivationNeverReverts(hs: seq<Header>, h: Header)
    requires MedianTimePast(hs) > 0 ==> h.timestamp > MedianTimePast(hs)
    requires ScriptsActiveForMtp(MedianTimePast(hs))
    ensures ScriptsActiveForMtp(MedianTimePast(hs + [h]))
  {
    MedianTimePastNeverFalls(hs, h);
  }
}
