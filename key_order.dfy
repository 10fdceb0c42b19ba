/** The order `processSchedule` puts a day's entries in: by their 24-hour start key, compared
    with `localeCompare`, in a stable sort. */
module KeyOrder {
  import opened Js
  import opened Types
  import opened Utils

  /** A day entry with the sort key the normaliser gives it, `startTime24`. */
  datatype Keyed = Keyed(cls: Class, key: string)

  /** The collation weight of a key character: ':' sorts before every digit and letter, as
      in the root collation; every other character by its code point. */
  function Weight(c: char): int
  {
    if c == ':' then -1 else c as int
  }

  /** `a.localeCompare(b) < 0` on sort keys: the first differing character decides, and a
      proper prefix comes first. */
  predicate KeyLess(a: string, b: string)
  {
    b != [] && (a == [] || Weight(a[0]) < Weight(b[0]) || (a[0] == b[0] && KeyLess(a[1..], b[1..])))
  }

  lemma {:induction false} KeyLessAsymmetric(a: string, b: string)
    ensures KeyLess(a, b) ==> !KeyLess(b, a)
    decreases |a|
  {
    if a != [] && b != [] && a[0] == b[0] {
      KeyLessAsymmetric(a[1..], b[1..]);
    }
  }

  lemma {:induction false} KeyLessTransitive(a: string, b: string, c: string)
    ensures KeyLess(a, b) && KeyLess(b, c) ==> KeyLess(a, c)
    decreases |a|
  {
    if a != [] && b != [] && c != [] {
      KeyLessTransitive(a[1..], b[1..], c[1..]);
    }
  }

  /** Two different keys are always ordered one way or the other. */
  lemma {:induction false} KeyLessTotal(a: string, b: string)
    ensures a == b || KeyLess(a, b) || KeyLess(b, a)
    decreases |a|
  {
    if a != [] && b != [] && a[0] == b[0] {
      KeyLessTotal(a[1..], b[1..]);
      if a[1..] == b[1..] {
        assert a == [a[0]] + a[1..] && b == [b[0]] + b[1..];
      }
    }
  }

  /** "Not after" is transitive: the sort's order is a total preorder. */
  lemma NotLessTransitive(a: string, b: string, c: string)
    requires !KeyLess(b, a) && !KeyLess(c, b)
    ensures !KeyLess(c, a)
  {
    if KeyLess(c, a) {
      KeyLessTotal(a, b);
      KeyLessTransitive(c, a, b);
    }
  }

  predicate SortedByKey(ks: seq<Keyed>)
  {
    forall i, j :: 0 <= i < j < |ks| ==> !KeyLess(ks[j].key, ks[i].key)
  }

  /** Every element of a sorted list is not before its head. */
  lemma HeadFirst(x: Keyed, ks: seq<Keyed>)
    requires SortedByKey(ks) && ks != [] && !KeyLess(ks[0].key, x.key)
    ensures forall k :: k in ks ==> !KeyLess(k.key, x.key)
  {
    forall k | k in ks
      ensures !KeyLess(k.key, x.key)
    {
      var j :| 0 <= j < |ks| && ks[j] == k;
      if j > 0 {
        NotLessTransitive(x.key, ks[0].key, k.key);
      }
    }
  }

  /** Insertion of one entry in front of the first that is not before it. */
  function InsertByKey(x: Keyed, ks: seq<Keyed>): (r: seq<Keyed>)
    requires SortedByKey(ks)
    ensures SortedByKey(r) && multiset(r) == multiset(ks) + multiset{x}
    ensures |r| == |ks| + 1
  {
    if ks == [] then [x]
    else if !KeyLess(ks[0].key, x.key) then
      HeadFirst(x, ks);
      [x] + ks
    else
      var rest := InsertByKey(x, ks[1..]);
      assert ks == [ks[0]] + ks[1..];
      KeyLessAsymmetric(ks[0].key, x.key);
      assert forall k :: k in rest ==> !KeyLess(k.key, ks[0].key) by {
        forall k | k in rest
          ensures !KeyLess(k.key, ks[0].key)
        {
          assert k in multiset(rest);
          if k != x {
            assert k in ks[1..];
          }
        }
      }
      [ks[0]] + rest
  }

  /** `.sort((a, b) => a.startTime24.localeCompare(b.startTime24))`, a stable sort. */
  function SortByKey(ks: seq<Keyed>): (r: seq<Keyed>)
    ensures SortedByKey(r) && multiset(r) == multiset(ks)
    ensures |r| == |ks|
  {
    if ks == [] then []
    else
      assert ks == [ks[0]] + ks[1..];
      InsertByKey(ks[0], SortByKey(ks[1..]))
  }

  /** The entries of `ks` whose key is `k`, in their order in `ks`. */
  function WithKey(ks: seq<Keyed>, k: string): seq<Keyed>
  {
    if ks == [] then []
    else (if ks[0].key == k then [ks[0]] else []) + WithKey(ks[1..], k)
  }

  /** `WithKey` of a list with `e` in front. */
  lemma WithKeyCons(e: Keyed, t: seq<Keyed>, k: string)
    ensures WithKey([e] + t, k) == (if e.key == k then [e] else []) + WithKey(t, k)
  {
    assert ([e] + t)[1..] == t;
  }

  /** Insertion behind a head that comes before the new entry. */
  lemma InsertBehindHead(x: Keyed, ks: seq<Keyed>)
    requires SortedByKey(ks) && ks != [] && KeyLess(ks[0].key, x.key)
    ensures SortedByKey(ks[1..]) && InsertByKey(x, ks) == [ks[0]] + InsertByKey(x, ks[1..])
    ensures ks[0].key != x.key
  {
    KeyLessAsymmetric(x.key, x.key);
  }

  /** Two lists of which one is empty can change places in front of a third. */
  lemma SwapEmpty(a: seq<Keyed>, b: seq<Keyed>, w: seq<Keyed>)
    requires a == [] || b == []
    ensures a + (b + w) == b + (a + w)
  {
    if a == [] {
      assert a + (b + w) == b + w == b + (a + w);
    } else {
      assert a + (b + w) == a + w == b + (a + w);
    }
  }

  /** Insertion puts the new entry in front of every entry with the same key. */
  lemma {:induction false} InsertWithKey(x: Keyed, ks: seq<Keyed>, k: string)
    requires SortedByKey(ks)
    ensures WithKey(InsertByKey(x, ks), k) == (if x.key == k then [x] else []) + WithKey(ks, k)
  {
    if ks == [] {
      WithKeyCons(x, [], k);
    } else if !KeyLess(ks[0].key, x.key) {
      WithKeyCons(x, ks, k);
    } else {
      InsertBehindHead(x, ks);
      InsertWithKey(x, ks[1..], k);
      WithKeyCons(ks[0], InsertByKey(x, ks[1..]), k);
      WithKeyCons(ks[0], ks[1..], k);
      assert ks == [ks[0]] + ks[1..];
      SwapEmpty(if ks[0].key == k then [ks[0]] else [], if x.key == k then [x] else [], WithKey(ks[1..], k));
    }
  }

  /** The sort is stable: the entries with any one key keep their relative order. */
  lemma {:induction false} SortByKeyStable(ks: seq<Keyed>, k: string)
    ensures WithKey(SortByKey(ks), k) == WithKey(ks, k)
  {
    if ks != [] {
      SortByKeyStable(ks[1..], k);
      InsertWithKey(ks[0], SortByKey(ks[1..]), k);
    }
  }

  /** For the keys `convertTo24Hour` writes for 12-hour text, the key order is the order of
      the times of day. */
  lemma KeyOrderIsTimeOrder(t: int, u: int)
    requires 0 <= t < MinutesPerDay && 0 <= u < MinutesPerDay
    ensures KeyLess(Format24(t), Format24(u)) <==> t < u
  {
    ClockNumberOfFormat24(t);
    ClockNumberOfFormat24(u);
    KeyLessOfClocks(Format24(t), Format24(u));
    HourMinuteOrder(t / 60, t % 60, u / 60, u % 60);
  }

  /** Hours and minutes written side by side compare as the minutes of the day they stand for. */
  lemma HourMinuteOrder(h: int, m: int, h': int, m': int)
    requires 0 <= m < 60 && 0 <= m' < 60
    ensures h * 100 + m < h' * 100 + m' <==> h * 60 + m < h' * 60 + m'
  {
    if h < h' {
      assert h * 100 + 100 <= h' * 100 && h * 60 + 60 <= h' * 60;
    } else if h > h' {
      assert h' * 100 + 100 <= h * 100 && h' * 60 + 60 <= h * 60;
    }
  }

  /** A five-character clock text: two digits, ':', two digits. */
  predicate IsClockShape(s: string)
  {
    |s| == 5 && IsDigit(s[0]) && IsDigit(s[1]) && s[2] == ':' && IsDigit(s[3]) && IsDigit(s[4])
  }

  /** The four digits of a clock text read as one number, `HHmm`. */
  function ClockNumber(s: string): nat
    requires IsClockShape(s)
  {
    DigitValue(s[0]) * 1000 + DigitValue(s[1]) * 100 + DigitValue(s[3]) * 10 + DigitValue(s[4])
  }

  lemma ClockNumberOfFormat24(t: int)
    requires 0 <= t < MinutesPerDay
    ensures IsClockShape(Format24(t)) && ClockNumber(Format24(t)) == (t / 60) * 100 + t % 60
  {
    var h, m := t / 60, t % 60;
    var s := Format24(t);
    assert s[0] == DigitChar(h / 10) && s[1] == DigitChar(h % 10);
    assert s[3] == DigitChar(m / 10) && s[4] == DigitChar(m % 10);
  }

  /** Comparing two clock texts character by character is comparing their numbers. */
  lemma {:induction false} KeyLessOfClocks(a: string, b: string)
    requires IsClockShape(a) && IsClockShape(b)
    ensures KeyLess(a, b) <==> ClockNumber(a) < ClockNumber(b)
  {
    KeyLessStep(a, b);
    KeyLessStep(a[1..], b[1..]);
    KeyLessStep(a[2..], b[2..]);
    assert a[1..][1..] == a[2..] && b[1..][1..] == b[2..];
    KeyLessStep(a[3..], b[3..]);
    assert a[2..][1..] == a[3..] && b[2..][1..] == b[3..];
    KeyLessStep(a[4..], b[4..]);
    assert a[3..][1..] == a[4..] && b[3..][1..] == b[4..];
    assert a[4..][1..] == [] && b[4..][1..] == [];
  }

  /** One step of the comparison of two texts of the same length. */
  lemma KeyLessStep(a: string, b: string)
    requires |a| == |b| > 0
    ensures KeyLess(a, b) <==>
      Weight(a[0]) < Weight(b[0]) || (a[0] == b[0] && KeyLess(a[1..], b[1..]))
  {
  }

  /** Dropping entries keeps a sorted list sorted. */
  lemma {:induction false} FilterSorted(p: Keyed -> bool, ks: seq<Keyed>)
    requires SortedByKey(ks)
    ensures SortedByKey(Filter(p, ks))
    decreases |ks|
  {
    if ks != [] {
      FilterStep(p, ks);
      FilterSorted(p, ks[1..]);
      if p(ks[0]) {
        var rest := Filter(p, ks[1..]);
        forall j | 0 <= j < |rest|
          ensures !KeyLess(rest[j].key, ks[0].key)
        {
          FilterMember(p, ks[1..], rest[j]);
          var m :| 0 <= m < |ks[1..]| && ks[1..][m] == rest[j];
          assert ks[m + 1] == rest[j];
        }
        var r := [ks[0]] + rest;
        forall i, j | 0 <= i < j < |r|
          ensures !KeyLess(r[j].key, r[i].key)
        {
          assert r[j] == rest[j - 1];
          if i > 0 {
            assert r[i] == rest[i - 1];
          }
        }
      }
    }
  }
}
