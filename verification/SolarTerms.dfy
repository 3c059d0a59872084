/** Which solar term today falls in (script.js, findCurrentTerm). The table
    maps ISO dates ("2025-03-20") to term names; today belongs to the term
    that began on the latest listed date not after it. */
module SolarTerms {
  import opened Wrappers

  /** Shown when today comes before every date in the table. */
  const NoTermYet: string := "尚未到今年第一節氣"

  /** JavaScript's `<` on strings: lexicographic by character, a proper
      prefix coming first. */
  predicate Before(a: string, b: string)
    decreases |a|
  {
    if a == [] then b != []
    else if b == [] then false
    else if a[0] != b[0] then a[0] < b[0]
    else Before(a[1..], b[1..])
  }

  lemma {:induction false} BeforeIrreflexive(a: string)
    ensures !Before(a, a)
  {
    if a != [] {
      BeforeIrreflexive(a[1..]);
    }
  }

  lemma {:induction false} BeforeTransitive(a: string, b: string, c: string)
    requires Before(a, b) && Before(b, c)
    ensures Before(a, c)
    decreases |a|
  {
    if a != [] && a[0] == b[0] && b[0] == c[0] {
      BeforeTransitive(a[1..], b[1..], c[1..]);
    }
  }

  /** Any two different strings are ordered one way round. */
  lemma {:induction false} BeforeTotal(a: string, b: string)
    ensures a == b || Before(a, b) || Before(b, a)
    decreases |a|
  {
    if a != [] && b != [] && a[0] == b[0] {
      BeforeTotal(a[1..], b[1..]);
      if a[1..] == b[1..] {
        assert a == [a[0]] + a[1..] && b == [b[0]] + b[1..];
      }
    }
  }

  lemma {:induction false} BeforeAsymmetric(a: string, b: string)
    requires Before(a, b)
    ensures !Before(b, a)
    decreases |a|
  {
    if a != [] && a[0] == b[0] {
      BeforeAsymmetric(a[1..], b[1..]);
    }
  }

  /** Dates in strictly increasing order. */
  predicate Ascending(dates: seq<string>)
  {
    forall i, j :: 0 <= i < j < |dates| ==> Before(dates[i], dates[j])
  }

  /** Places `d` in front of the first later date. */
  function InsertDate(d: string, dates: seq<string>): seq<string>
  {
    if dates == [] || Before(d, dates[0]) then [d] + dates
    else [dates[0]] + InsertDate(d, dates[1..])
  }

  lemma {:induction false} InsertDateSpec(d: string, dates: seq<string>)
    requires Ascending(dates) && d !in dates
    ensures Ascending(InsertDate(d, dates))
    ensures forall x :: x in InsertDate(d, dates) <==> x == d || x in dates
  {
    if dates == [] || Before(d, dates[0]) {
      var r := [d] + dates;
      forall i, j | 0 <= i < j < |r| ensures Before(r[i], r[j]) {
        if i == 0 && j > 1 {
          BeforeTransitive(d, dates[0], dates[j - 1]);
        }
      }
    } else {
      var tail := dates[1..];
      InsertDateSpec(d, tail);
      BeforeTotal(d, dates[0]);
      var rest := InsertDate(d, tail);
      var r := [dates[0]] + rest;
      assert dates == [dates[0]] + tail;
      forall i, j | 0 <= i < j < |r| ensures Before(r[i], r[j]) {
        if i == 0 {
          assert r[j] in rest;
          if r[j] != d {
            var k :| 0 <= k < |tail| && tail[k] == r[j];
            assert dates[k + 1] == r[j];
          }
        }
      }
    }
  }

  /** `Object.keys(terms).sort()`: the table's dates in increasing order. */
  method SortDates(keys: set<string>) returns (dates: seq<string>)
    ensures Ascending(dates)
    ensures forall d :: d in dates <==> d in keys
  {
    dates := [];
    var rest := keys;
    while rest != {}
      invariant rest <= keys
      invariant Ascending(dates)
      invariant forall d :: d in dates <==> d in keys && d !in rest
      decreases |rest|
    {
      var d :| d in rest;
      InsertDateSpec(d, dates);
      dates := InsertDate(d, dates);
      rest := rest - {d};
    }
  }

  /** `d` is the latest of the dates that are not after `today`. */
  ghost predicate LatestUpTo(dates: set<string>, today: string, d: string)
  {
    d in dates && !Before(today, d)
    && forall k :: k in dates && !Before(today, k) ==> !Before(d, k)
  }

  /** There is at most one latest date. */
  lemma LatestUpToUnique(dates: set<string>, today: string, a: string, b: string)
    requires LatestUpTo(dates, today, a) && LatestUpTo(dates, today, b)
    ensures a == b
  {
    BeforeTotal(a, b);
  }

  /** There is one as soon as some date is not after `today`. */
  lemma {:induction false} LatestUpToExists(dates: set<string>, today: string, k: string)
    requires k in dates && !Before(today, k)
    ensures exists d :: LatestUpTo(dates, today, d)
    decreases |dates|
  {
    var rest := dates - {k};
    if j :| j in rest && !Before(today, j) {
      LatestUpToExists(rest, today, j);
      var d :| LatestUpTo(rest, today, d);
      if Before(d, k) {
        BeforeIrreflexive(k);
        forall x | x in dates && !Before(today, x) ensures !Before(k, x) {
          if x != k && Before(k, x) {
            BeforeTransitive(d, k, x);
          }
        }
        assert LatestUpTo(dates, today, k);
      } else {
        assert LatestUpTo(dates, today, d);
      }
    } else {
      BeforeIrreflexive(k);
      assert LatestUpTo(dates, today, k);
    }
  }

  /** findCurrentTerm: today's own entry if it is non-empty; otherwise the
      entry of the latest date not after today, walking the sorted dates and
      stopping at the first later one; `NoTermYet` when there is none or it
      is empty (an empty string is falsy in JavaScript). */
  method FindCurrentTerm(terms: map<string, string>, today: string) returns (term: string)
    ensures today in terms && terms[today] != "" ==> term == terms[today]
    ensures (forall d :: d in terms ==> Before(today, d)) ==> term == NoTermYet
    ensures forall d :: LatestUpTo(terms.Keys, today, d) ==>
      term == (if terms[d] != "" then terms[d] else NoTermYet)
  {
    if today in terms && terms[today] != "" {
      BeforeIrreflexive(today);
      forall d | LatestUpTo(terms.Keys, today, d) ensures d == today {
        LatestUpToUnique(terms.Keys, today, d, today);
      }
      return terms[today];
    }
    var dates := SortDates(terms.Keys);
    var prevTerm: Option<string> := None;
    var i := 0;
    while i < |dates|
      invariant 0 <= i <= |dates|
      invariant forall j :: 0 <= j < i ==> !Before(today, dates[j])
      invariant prevTerm == if i == 0 then None else Some(terms[dates[i - 1]])
    {
      if Before(today, dates[i]) {
        break;
      }
      prevTerm := Some(terms[dates[i]]);
      i := i + 1;
    }
    LatestIsLastWalked(terms.Keys, dates, today, i);
    term := if prevTerm.Some? && prevTerm.value != "" then prevTerm.value else NoTermYet;
  }

  /** Where the walk stops: every date before index `i` is not after today,
      and the date at `i`, if any, is. Then the latest date is the last one
      walked, and there is none when nothing was walked. */
  lemma LatestIsLastWalked(keys: set<string>, dates: seq<string>, today: string, i: nat)
    requires Ascending(dates) && (forall d :: d in dates <==> d in keys)
    requires i <= |dates|
    requires forall j :: 0 <= j < i ==> !Before(today, dates[j])
    requires i < |dates| ==> Before(today, dates[i])
    ensures i == 0 ==> forall d :: !LatestUpTo(keys, today, d)
    ensures i > 0 ==> forall d :: LatestUpTo(keys, today, d) <==> d == dates[i - 1]
  {
    forall p | i <= p < |dates| ensures Before(today, dates[p]) {
      if p > i {
        BeforeTransitive(today, dates[i], dates[p]);
      }
    }
    forall d | LatestUpTo(keys, today, d) ensures i > 0 && d == dates[i - 1] {
      var p :| 0 <= p < |dates| && dates[p] == d;
      assert p < i;
    }
    if i > 0 {
      var last := dates[i - 1];
      forall x | x in keys && !Before(today, x) ensures !Before(last, x) {
        var p :| 0 <= p < |dates| && dates[p] == x;
        if p < i - 1 {
          BeforeAsymmetric(x, last);
        } else if p == i - 1 {
          BeforeIrreflexive(x);
        }
      }
      assert LatestUpTo(keys, today, last);
    }
  }
}
