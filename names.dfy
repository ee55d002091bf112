/** The ordering of `std::string` / `std::string_view` keys (lexicographic,
    character by character) and the strictly sorted sequences that model the
    iteration order of a `std::set` or `std::map` keyed by names. */
module Names {

  /** `a < b` on strings: lexicographic, a proper prefix sorts first. */
  predicate Less(a: string, b: string)
    decreases |a|
  {
    if |a| == 0 then |b| > 0
    else |b| > 0 && (a[0] < b[0] || (a[0] == b[0] && Less(a[1..], b[1..])))
  }

  lemma {:induction false} LessIrreflexive(a: string)
    ensures !Less(a, a)
    decreases |a|
  {
    if |a| > 0 {
      LessIrreflexive(a[1..]);
    }
  }

  lemma {:induction false} LessTransitive(a: string, b: string, c: string)
    requires Less(a, b) && Less(b, c)
    ensures Less(a, c)
    decreases |a|
  {
    if |a| > 0 && a[0] == b[0] && b[0] == c[0] {
      LessTransitive(a[1..], b[1..], c[1..]);
    }
  }

  lemma {:induction false} LessTotal(a: string, b: string)
    requires a != b
    ensures Less(a, b) || Less(b, a)
    decreases |a|
  {
    if |a| > 0 && |b| > 0 && a[0] == b[0] {
      assert a == [a[0]] + a[1..] && b == [b[0]] + b[1..];
      LessTotal(a[1..], b[1..]);
    }
  }

  lemma {:induction false} LessAsymmetric(a: string, b: string)
    requires Less(a, b)
    ensures !Less(b, a)
  {
    if Less(b, a) {
      LessTransitive(a, b, a);
      LessIrreflexive(a);
    }
  }

  /** The iteration order of an ordered container of names: strictly
      ascending, hence free of duplicates. */
  predicate StrictlySorted(s: seq<string>)
  {
    forall i, j | 0 <= i < j < |s| :: Less(s[i], s[j])
  }

  /** Inserting a name into an ordered set of names (`std::set::insert`,
      or `std::map::operator[]` on a new key). */
  function Insert(s: seq<string>, x: string): (r: seq<string>)
    requires StrictlySorted(s)
    ensures StrictlySorted(r)
    ensures forall y :: y in r <==> y in s || y == x
    ensures x in s ==> r == s
    ensures x !in s ==> |r| == |s| + 1
  {
    if s == [] then [x]
    else if x == s[0] then s
    else if Less(x, s[0]) then
      assert forall j | 0 < j < |s| :: Less(x, s[j]) by {
        forall j | 0 < j < |s| ensures Less(x, s[j]) {
          LessTransitive(x, s[0], s[j]);
        }
      }
      LessIrreflexive(x);
      assert x !in s;
      [x] + s
    else
      LessTotal(x, s[0]);
      var tail := Insert(s[1..], x);
      assert forall y :: y in tail ==> Less(s[0], y);
      [s[0]] + tail
  }

  /** An ordered container is determined by its elements: two strictly sorted
      sequences holding the same names are equal. */
  lemma {:induction false} SortedUnique(a: seq<string>, b: seq<string>)
    requires StrictlySorted(a) && StrictlySorted(b)
    requires forall y :: y in a <==> y in b
    ensures a == b
    decreases |a|
  {
    if a != [] && b != [] {
      assert a[0] in b && b[0] in a;
      var k :| 0 <= k < |b| && b[k] == a[0];
      var m :| 0 <= m < |a| && a[m] == b[0];
      if k > 0 && m > 0 {
        LessAsymmetric(b[0], b[k]);
        assert false;
      }
      assert a[0] == b[0];
      forall y ensures y in a[1..] ==> y in b[1..] {
        if y in a[1..] {
          var i :| 0 <= i < |a| - 1 && a[1..][i] == y;
          LessIrreflexive(a[0]);
          assert Less(a[0], a[i + 1]) && y in b;
          var t :| 0 <= t < |b| && b[t] == y;
          assert t != 0 && b[1..][t - 1] == y;
        }
      }
      forall y ensures y in b[1..] ==> y in a[1..] {
        if y in b[1..] {
          var i :| 0 <= i < |b| - 1 && b[1..][i] == y;
          LessIrreflexive(b[0]);
          assert Less(b[0], b[i + 1]) && y in a;
          var t :| 0 <= t < |a| && a[t] == y;
          assert t != 0 && a[1..][t - 1] == y;
        }
      }
      SortedUnique(a[1..], b[1..]);
    } else if a != [] {
      HeadIsElement(a);
      assert false;
    } else if b != [] {
      HeadIsElement(b);
      assert false;
    }
  }

  lemma HeadIsElement(s: seq<string>)
    ensures s != [] ==> s[0] in s
  {
  }

  /** A strictly sorted sequence has no repeated element, so its length is
      the number of distinct names it holds. */
  lemma {:induction false} SortedDistinct(s: seq<string>, i: int, j: int)
    requires StrictlySorted(s)
    requires 0 <= i < |s| && 0 <= j < |s| && s[i] == s[j]
    ensures i == j
  {
    if i < j {
      LessIrreflexive(s[i]);
    } else if j < i {
      LessIrreflexive(s[j]);
    }
  }

  /** Positions in a strictly sorted sequence are ordered as its elements. */
  lemma SortedOrder(s: seq<string>, p: int, q: int)
    requires StrictlySorted(s) && 0 <= p < |s| && 0 <= q < |s|
    ensures Less(s[p], s[q]) <==> p < q
  {
    if q < p {
      LessAsymmetric(s[q], s[p]);
    } else if p == q {
      LessIrreflexive(s[p]);
    }
  }

  /** Every finite set of names can be listed in ascending order. */
  lemma SortedExists(names: set<string>)
    ensures exists r :: StrictlySorted(r) && forall y :: y in r <==> y in names
  {
    var r: seq<string> := [];
    var pending := names;
    while pending != {}
      invariant pending <= names
      invariant StrictlySorted(r)
      invariant forall y :: y in r <==> y in names - pending
      decreases pending
    {
      var x :| x in pending;
      r := Insert(r, x);
      pending := pending - {x};
    }
  }

  /** The ascending listing of a set of names: the order in which a
      `std::map` or `std::set` holding them is iterated. */
  ghost function Ascending(names: set<string>): (r: seq<string>)
    ensures StrictlySorted(r) && forall y :: y in r <==> y in names
  {
    SortedExists(names);
    var r :| StrictlySorted(r) && forall y :: y in r <==> y in names;
    r
  }
}
