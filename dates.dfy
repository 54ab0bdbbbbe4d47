/** Calendar-day keys of the usage history and the order the program sorts them in. */
module Dates {
  import opened Decimal

  /** A day as the program writes it: the date part of an ISO timestamp, "YYYY-MM-DD". */
  predicate IsIsoDate(s: string) {
    && |s| == 10
    && IsDigit(s[0]) && IsDigit(s[1]) && IsDigit(s[2]) && IsDigit(s[3]) && s[4] == '-'
    && IsDigit(s[5]) && IsDigit(s[6]) && s[7] == '-'
    && IsDigit(s[8]) && IsDigit(s[9])
  }

  type Date = s: string | IsIsoDate(s) witness "1970-01-01"

  /** The order of `Array.prototype.sort` without a comparator on ASCII text such as ISO days:
      lexicographic by character, a proper prefix first. (JavaScript compares UTF-16 code units,
      which agrees with this order on characters below U+10000.) */
  predicate Before(a: string, b: string)
    decreases |b|
  {
    && |b| > 0
    && (|a| == 0 || a[0] < b[0] || (a[0] == b[0] && Before(a[1..], b[1..])))
  }

  lemma {:induction false} BeforeIrreflexive(a: string)
    ensures !Before(a, a)
    decreases |a|
  {
    if |a| > 0 {
      BeforeIrreflexive(a[1..]);
    }
  }

  lemma {:induction false} BeforeAsymmetric(a: string, b: string)
    requires Before(a, b)
    ensures !Before(b, a)
    decreases |a|
  {
    if |a| > 0 && a[0] == b[0] {
      BeforeAsymmetric(a[1..], b[1..]);
    }
  }

  lemma {:induction false} BeforeTransitive(a: string, b: string, c: string)
    requires Before(a, b) && Before(b, c)
    ensures Before(a, c)
    decreases |a|
  {
    if |a| > 0 && a[0] == b[0] && b[0] == c[0] {
      BeforeTransitive(a[1..], b[1..], c[1..]);
    }
  }

  lemma {:induction false} BeforeTotal(a: string, b: string)
    requires a != b
    ensures Before(a, b) || Before(b, a)
    decreases |a|
  {
    if |a| > 0 && |b| > 0 && a[0] == b[0] {
      assert a == [a[0]] + a[1..] && b == [b[0]] + b[1..];
      BeforeTotal(a[1..], b[1..]);
    }
  }

  /** `d` is the lexicographically greatest day of `ds`. */
  ghost predicate IsNewest(d: Date, ds: set<Date>) {
    d in ds && forall e :: e in ds && e != d ==> Before(e, d)
  }

  lemma NewestExtends(ds: set<Date>, y: Date, x: Date)
    requires IsNewest(y, ds) && Before(y, x)
    ensures forall e :: e in ds ==> Before(e, x)
  {
    forall e | e in ds
      ensures Before(e, x)
    {
      if e != y {
        BeforeTransitive(e, y, x);
      }
    }
  }

  /** The greatest day of a non-empty set of days; it always exists since `Before` is total. */
  ghost function Newest(ds: set<Date>): (d: Date)
    requires ds != {}
    ensures IsNewest(d, ds)
    decreases ds
  {
    var x :| x in ds;
    if ds == {x} then x
    else
      var y := Newest(ds - {x});
      if Before(x, y) then y
      else
        BeforeTotal(x, y);
        NewestExtends(ds - {x}, y, x);
        x
  }

  lemma NewestUnique(d: Date, e: Date, ds: set<Date>)
    requires IsNewest(d, ds) && IsNewest(e, ds)
    ensures d == e
  {
    if d != e {
      BeforeAsymmetric(e, d);
    }
  }

  ghost predicate StrictlyIncreasing(s: seq<Date>) {
    forall i, j :: 0 <= i < j < |s| ==> Before(s[i], s[j])
  }

  /** The days of `ds` oldest first: what `Object.keys(data).sort()` yields. */
  ghost function Chronological(ds: set<Date>): (s: seq<Date>)
    ensures |s| == |ds|
    ensures forall i :: 0 <= i < |s| ==> s[i] in ds
    ensures StrictlyIncreasing(s)
    decreases ds
  {
    if ds == {} then []
    else
      var d := Newest(ds);
      Chronological(ds - {d}) + [d]
  }

  /** Every day of `ds` has its place in the ascending order. */
  lemma {:induction false} ChronologicalCovers(ds: set<Date>)
    ensures forall d :: d in ds ==> d in Chronological(ds)
    decreases ds
  {
    if ds != {} {
      var d := Newest(ds);
      ChronologicalCovers(ds - {d});
    }
  }

  lemma ChronologicalLast(ds: set<Date>, d: Date)
    requires IsNewest(d, ds)
    ensures Chronological(ds) == Chronological(ds - {d}) + [d]
  {
    NewestUnique(d, Newest(ds), ds);
  }

  /** One pass of the sort: the greatest day among `ds`. */
  method NewestOf(ds: set<Date>) returns (d: Date)
    requires ds != {}
    ensures IsNewest(d, ds)
  {
    d :| d in ds;
    var todo := ds - {d};
    while todo != {}
      invariant todo <= ds && d in ds && d !in todo
      invariant forall e :: e in ds - todo && e != d ==> Before(e, d)
      decreases todo
    {
      var e :| e in todo;
      if Before(d, e) {
        NewestExtends(ds - todo, d, e);
        d := e;
      } else {
        BeforeTotal(d, e);
      }
      todo := todo - {e};
    }
  }

  /** Regrouping a concatenation; the sort below and the report text proofs call it to spare
      the solver the extensional equality. */
  lemma ConcatAssociative<T>(a: seq<T>, b: seq<T>, c: seq<T>)
    ensures a + b + c == a + (b + c)
  {
  }

  /** `Object.keys(data).sort()`, as a selection sort that moves the greatest remaining day
      to the front of the sorted tail. */
  method SortChronological(ds: set<Date>) returns (s: seq<Date>)
    ensures s == Chronological(ds)
  {
    s := [];
    var rest := ds;
    while rest != {}
      invariant Chronological(rest) + s == Chronological(ds)
      decreases rest
    {
      var d := NewestOf(rest);
      ChronologicalLast(rest, d);
      ConcatAssociative(Chronological(rest - {d}), [d], s);
      rest := rest - {d};
      s := [d] + s;
    }
    assert Chronological(rest) == [];
  }
}
