/** Strings as the program sees them: the default string order of
    `Array.prototype.sort` (lexicographic order on Dafny characters, that is
    code points, which equals UTF-16 code-unit order for strings within the
    Basic Multilingual Plane) and decimal rendering of integers in template
    strings. */
module Text {

  /** `a` is a proper prefix of `b`. */
  ghost predicate ProperPrefix(a: string, b: string) {
    |a| < |b| && a == b[..|a|]
  }

  /** `a` and `b` agree before position `k` and `a` has the smaller
      character there. */
  ghost predicate SmallerAt(a: string, b: string, k: int) {
    0 <= k < |a| && k < |b| && a[..k] == b[..k] && a[k] < b[k]
  }

  /** `a` sorts strictly before `b`: a proper prefix comes first, otherwise
      the first differing character decides. */
  function Less(a: string, b: string): (r: bool)
    ensures r <==> ProperPrefix(a, b) || exists k :: SmallerAt(a, b, k)
    decreases |a|
  {
    if a == [] then b != []
    else if b == [] then false
    else if a[0] != b[0] then
      FirstCharDecides(a, b);
      a[0] < b[0]
    else
      SameFirstChar(a, b);
      Less(a[1..], b[1..])
  }

  /** When the first characters differ, only position 0 can decide. */
  lemma FirstCharDecides(a: string, b: string)
    requires a != [] && b != [] && a[0] != b[0]
    ensures !ProperPrefix(a, b)
    ensures (exists k :: SmallerAt(a, b, k)) <==> a[0] < b[0]
  {
    if a[0] < b[0] {
      assert SmallerAt(a, b, 0);
    }
    forall k | SmallerAt(a, b, k)
      ensures a[0] < b[0]
    {
      assert k > 0 ==> a[..k][0] == a[0];
    }
  }

  /** A shared first character can be dropped from both strings. */
  lemma SameFirstChar(a: string, b: string)
    requires a != [] && b != [] && a[0] == b[0]
    ensures ProperPrefix(a, b) <==> ProperPrefix(a[1..], b[1..])
    ensures (exists k :: SmallerAt(a, b, k)) <==> exists k :: SmallerAt(a[1..], b[1..], k)
  {
    assert a == [a[0]] + a[1..] && b == [b[0]] + b[1..];
    if ProperPrefix(a[1..], b[1..]) {
      assert b[..|a|] == [b[0]] + b[1..][..|a| - 1];
    }
    if ProperPrefix(a, b) {
      assert b[1..][..|a| - 1] == b[..|a|][1..];
    }
    forall k | SmallerAt(a, b, k)
      ensures SmallerAt(a[1..], b[1..], k - 1)
    {
      if k == 0 {
        assert false;
      }
      assert a[1..][..k - 1] == a[..k][1..];
      assert b[1..][..k - 1] == b[..k][1..];
    }
    forall k | SmallerAt(a[1..], b[1..], k)
      ensures SmallerAt(a, b, k + 1)
    {
      assert a[..k + 1] == [a[0]] + a[1..][..k];
      assert b[..k + 1] == [b[0]] + b[1..][..k];
    }
  }

  lemma {:induction false} LessIrreflexive(a: string)
    ensures !Less(a, a)
    decreases |a|
  {
    if a != [] {
      LessIrreflexive(a[1..]);
    }
  }

  lemma {:induction false} LessTransitive(a: string, b: string, c: string)
    requires Less(a, b) && Less(b, c)
    ensures Less(a, c)
    decreases |a|
  {
    if a != [] && a[0] == b[0] && b[0] == c[0] {
      LessTransitive(a[1..], b[1..], c[1..]);
    }
  }

  /** Any two different strings are ordered one way or the other. */
  lemma {:induction false} LessTotal(a: string, b: string)
    requires a != b
    ensures Less(a, b) || Less(b, a)
    decreases |a|
  {
    if a != [] && b != [] && a[0] == b[0] {
      assert a == [a[0]] + a[1..] && b == [b[0]] + b[1..];
      LessTotal(a[1..], b[1..]);
    }
  }

  lemma LessAsymmetric(a: string, b: string)
    requires Less(a, b)
    ensures !Less(b, a)
  {
    if Less(b, a) {
      LessTransitive(a, b, a);
      LessIrreflexive(a);
    }
  }

  ghost predicate StrictlyIncreasing(s: seq<string>) {
    forall i, j :: 0 <= i < j < |s| ==> Less(s[i], s[j])
  }

  ghost predicate NoDuplicates(s: seq<string>) {
    forall i, j :: 0 <= i < j < |s| ==> s[i] != s[j]
  }

  /** Places `x` after every element of `t` that does not sort after it,
      scanning from the end: one step of an insertion sort. */
  function InsertString(t: seq<string>, x: string): (r: seq<string>)
    ensures multiset(r) == multiset(t) + multiset{x}
    decreases |t|
  {
    if t == [] then [x]
    else if Less(x, t[|t| - 1]) then
      assert t == t[..|t| - 1] + [t[|t| - 1]];
      InsertString(t[..|t| - 1], x) + [t[|t| - 1]]
    else
      t + [x]
  }

  /** The default (comparator-free) `sort()` of an array of strings. */
  function SortStrings(s: seq<string>): (r: seq<string>)
    ensures multiset(r) == multiset(s)
    decreases |s|
  {
    if s == [] then []
    else
      assert s == s[..|s| - 1] + [s[|s| - 1]];
      InsertString(SortStrings(s[..|s| - 1]), s[|s| - 1])
  }

  lemma {:induction false} InsertStringIncreasing(t: seq<string>, x: string)
    requires StrictlyIncreasing(t) && x !in t
    ensures StrictlyIncreasing(InsertString(t, x))
    decreases |t|
  {
    if t != [] {
      var last := t[|t| - 1];
      var init := t[..|t| - 1];
      assert t == init + [last];
      if Less(x, last) {
        InsertStringIncreasing(init, x);
        var r0 := InsertString(init, x);
        forall y | y in r0
          ensures Less(y, last)
        {
          assert y in multiset(r0);
          if y != x {
            assert y in init;
            var k :| 0 <= k < |init| && init[k] == y;
            assert t[k] == y;
          }
        }
        assert InsertString(t, x) == r0 + [last];
      } else {
        assert x != last;
        LessTotal(x, last);
        forall k | 0 <= k < |t|
          ensures Less(t[k], x)
        {
          if k < |t| - 1 {
            LessTransitive(t[k], last, x);
          }
        }
      }
    }
  }

  /** Sorting a duplicate-free list of strings gives a strictly increasing one. */
  lemma {:induction false} SortStringsIncreasing(s: seq<string>)
    requires NoDuplicates(s)
    ensures StrictlyIncreasing(SortStrings(s))
    decreases |s|
  {
    if s != [] {
      var init := s[..|s| - 1];
      var last := s[|s| - 1];
      assert NoDuplicates(init) by {
        forall i, j | 0 <= i < j < |init| ensures init[i] != init[j] {
          assert init[i] == s[i] && init[j] == s[j];
        }
      }
      SortStringsIncreasing(init);
      assert last !in init by {
        forall k | 0 <= k < |init|
          ensures init[k] != last
        {
          assert init[k] == s[k];
        }
      }
      assert last !in multiset(SortStrings(init));
      InsertStringIncreasing(SortStrings(init), last);
    }
  }

  /** A strictly increasing list is determined by its elements. */
  lemma {:induction false} StrictlyIncreasingUnique(a: seq<string>, b: seq<string>)
    requires StrictlyIncreasing(a) && StrictlyIncreasing(b)
    requires forall t :: t in a <==> t in b
    ensures a == b
    decreases |a|
  {
    assert a != [] ==> a[0] in b;
    assert b != [] ==> b[0] in a;
    if a != [] && b != [] {
      // the first element of each is the least element of the common set
      assert a[0] in a && b[0] in b;
      if a[0] != b[0] {
        var i :| 0 <= i < |b| && b[i] == a[0];
        var j :| 0 <= j < |a| && a[j] == b[0];
        assert Less(b[0], a[0]) && Less(a[0], b[0]);
        LessAsymmetric(b[0], a[0]);
      }
      forall t
        ensures t in a[1..] <==> t in b[1..]
      {
        if t in a[1..] {
          var j :| 1 <= j < |a| && a[j] == t;
          assert Less(a[0], t);
          LessIrreflexive(t);
          assert t in b;
          var i :| 0 <= i < |b| && b[i] == t;
          assert i != 0;
          assert b[1..][i - 1] == t;
        }
        if t in b[1..] {
          var j :| 1 <= j < |b| && b[j] == t;
          assert Less(b[0], t);
          LessIrreflexive(t);
          assert t in a;
          var i :| 0 <= i < |a| && a[i] == t;
          assert i != 0;
          assert a[1..][i - 1] == t;
        }
      }
      StrictlyIncreasingUnique(a[1..], b[1..]);
      assert a == [a[0]] + a[1..] && b == [b[0]] + b[1..];
    }
  }

  // ---- decimal rendering, as `${n}` prints an integer ----

  function DigitChar(d: nat): (c: char)
    requires d < 10
    ensures '0' <= c <= '9'
    ensures c as int - '0' as int == d
  {
    ['0', '1', '2', '3', '4', '5', '6', '7', '8', '9'][d]
  }

  ghost predicate AllDigits(s: string) {
    forall i :: 0 <= i < |s| ==> '0' <= s[i] <= '9'
  }

  /** The decimal digits of `n`, most significant first, with no leading zero. */
  function NatToDecimal(n: nat): (s: string)
    ensures |s| >= 1 && AllDigits(s)
    ensures |s| > 1 ==> s[0] != '0'
    decreases n
  {
    if n < 10 then [DigitChar(n)]
    else NatToDecimal(n / 10) + [DigitChar(n % 10)]
  }

  /** Reads a string of decimal digits back as a number. */
  function DecimalValue(s: string): nat
    requires AllDigits(s)
    decreases |s|
  {
    if s == [] then 0
    else DecimalValue(s[..|s| - 1]) * 10 + (s[|s| - 1] as int - '0' as int)
  }

  /** Rendering a natural number and reading it back gives the number. */
  lemma {:induction false} NatToDecimalRoundTrip(n: nat)
    ensures DecimalValue(NatToDecimal(n)) == n
    decreases n
  {
    var s := NatToDecimal(n);
    if n >= 10 {
      NatToDecimalRoundTrip(n / 10);
      assert s[..|s| - 1] == NatToDecimal(n / 10);
    }
  }

  /** `${n}` for an integer: a minus sign before the digits of a negative one. */
  function IntToDecimal(n: int): (s: string)
    ensures n >= 0 ==> AllDigits(s)
    ensures n < 0 ==> |s| >= 2 && s[0] == '-' && AllDigits(s[1..])
  {
    if n < 0 then "-" + NatToDecimal(-n) else NatToDecimal(n)
  }
}
