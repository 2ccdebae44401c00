/**
 * The screen list of the dashboard's home page (UI/src/app/page.tsx): the
 * distinct `screen` values of all actions, sorted, replacing the previous
 * list only when there is at least one.
 */
module HomePage {
  import opened Wrappers

  /** The list shown before any config has loaded. */
  const InitialScreens: seq<string> := ["1", "2"]

  // ---- String order ----

  /** JavaScript's default `sort` order on strings: character by character, a prefix first. */
  predicate LessEq(a: string, b: string) {
    a == [] || (b != [] && (a[0] < b[0] || (a[0] == b[0] && LessEq(a[1..], b[1..]))))
  }

  lemma {:induction false} LessEqTotal(a: string, b: string)
    ensures LessEq(a, b) || LessEq(b, a)
  {
    if a != [] && b != [] && a[0] == b[0] {
      LessEqTotal(a[1..], b[1..]);
    }
  }

  lemma {:induction false} LessEqTransitive(a: string, b: string, c: string)
    requires LessEq(a, b) && LessEq(b, c)
    ensures LessEq(a, c)
  {
    if a != [] && a[0] == b[0] && b[0] == c[0] {
      LessEqTransitive(a[1..], b[1..], c[1..]);
    }
  }

  predicate Sorted(s: seq<string>) {
    forall i, j :: 0 <= i < j < |s| ==> LessEq(s[i], s[j])
  }

  predicate NoDup(s: seq<string>) {
    forall i, j :: 0 <= i < j < |s| ==> s[i] != s[j]
  }

  // ---- new Set(...): first occurrences, in order ----

  /** The elements of `xs` without repeats, each at its first occurrence. */
  function Dedup(xs: seq<string>): seq<string>
  {
    if xs == [] then []
    else
      var r := Dedup(xs[..|xs| - 1]);
      if xs[|xs| - 1] in r then r else r + [xs[|xs| - 1]]
  }

  /** `Dedup` keeps exactly the elements of its input, each once. */
  lemma {:induction false} DedupElements(xs: seq<string>)
    ensures NoDup(Dedup(xs))
    ensures forall x :: x in Dedup(xs) <==> x in xs
  {
    if xs != [] {
      var init := xs[..|xs| - 1];
      DedupElements(init);
      assert xs == init + [xs[|xs| - 1]];
    }
  }

  // ---- sort() ----

  function Insert(x: string, s: seq<string>): seq<string>
  {
    if s == [] then [x]
    else if LessEq(x, s[0]) then [x] + s
    else [s[0]] + Insert(x, s[1..])
  }

  /** The list sorted by insertion. */
  function Sort(xs: seq<string>): seq<string>
  {
    if xs == [] then [] else Insert(xs[0], Sort(xs[1..]))
  }

  lemma {:induction false} InsertPermutes(x: string, s: seq<string>)
    ensures multiset(Insert(x, s)) == multiset(s) + multiset{x}
  {
    if s != [] && !LessEq(x, s[0]) {
      InsertPermutes(x, s[1..]);
      assert s == [s[0]] + s[1..];
    }
  }

  lemma SortedCons(h: string, t: seq<string>)
    requires Sorted(t) && forall y :: y in t ==> LessEq(h, y)
    ensures Sorted([h] + t)
  {
    forall i, j | 0 <= i < j < |[h] + t| ensures LessEq(([h] + t)[i], ([h] + t)[j]) {
      if i > 0 {
        assert ([h] + t)[i] == t[i - 1];
      }
      assert ([h] + t)[j] == t[j - 1];
    }
  }

  lemma {:induction false} InsertSorted(x: string, s: seq<string>)
    requires Sorted(s)
    ensures Sorted(Insert(x, s))
  {
    if s == [] {
    } else if LessEq(x, s[0]) {
      forall y | y in s ensures LessEq(x, y) {
        if y != s[0] {
          var j :| 0 <= j < |s| && s[j] == y;
          LessEqTransitive(x, s[0], y);
        }
      }
      SortedCons(x, s);
    } else {
      var rest := s[1..];
      assert Sorted(rest) by {
        forall i, j | 0 <= i < j < |rest| ensures LessEq(rest[i], rest[j]) {
          assert rest[i] == s[i + 1] && rest[j] == s[j + 1];
        }
      }
      InsertSorted(x, rest);
      InsertPermutes(x, rest);
      LessEqTotal(x, s[0]);
      forall y | y in Insert(x, rest) ensures LessEq(s[0], y) {
        assert y in multiset(rest) + multiset{x};
        if y != x {
          var j :| 0 <= j < |rest| && rest[j] == y;
          assert s[j + 1] == y;
        }
      }
      SortedCons(s[0], Insert(x, rest));
    }
  }

  /** Sorting orders the list and keeps every element as often as it occurs. */
  lemma {:induction false} SortSorts(xs: seq<string>)
    ensures Sorted(Sort(xs))
    ensures multiset(Sort(xs)) == multiset(xs)
  {
    if xs != [] {
      SortSorts(xs[1..]);
      InsertSorted(xs[0], Sort(xs[1..]));
      InsertPermutes(xs[0], Sort(xs[1..]));
      assert xs == [xs[0]] + xs[1..];
    }
  }

  /** Sorting a list without repeats gives a list without repeats. */
  lemma {:induction false} SortKeepsNoDup(xs: seq<string>)
    requires NoDup(xs)
    ensures NoDup(Sort(xs))
  {
    if xs != [] {
      var tail := xs[1..];
      assert NoDup(tail) by {
        forall i, j | 0 <= i < j < |tail| ensures tail[i] != tail[j] {
          assert tail[i] == xs[i + 1] && tail[j] == xs[j + 1];
        }
      }
      SortKeepsNoDup(tail);
      SortSorts(tail);
      assert xs[0] !in tail by {
        forall j | 0 <= j < |tail| ensures tail[j] != xs[0] {
          assert tail[j] == xs[j + 1];
        }
      }
      assert xs[0] !in Sort(tail) by {
        assert xs[0] !in multiset(tail);
      }
      InsertNoDup(xs[0], Sort(tail));
    }
  }

  lemma {:induction false} InsertNoDup(x: string, s: seq<string>)
    requires NoDup(s) && x !in s
    ensures NoDup(Insert(x, s))
  {
    if s != [] && !LessEq(x, s[0]) {
      var rest := s[1..];
      assert NoDup(rest) by {
        forall i, j | 0 <= i < j < |rest| ensures rest[i] != rest[j] {
          assert rest[i] == s[i + 1] && rest[j] == s[j + 1];
        }
      }
      assert x !in rest;
      InsertNoDup(x, rest);
      InsertPermutes(x, rest);
      var r := Insert(x, rest);
      assert s[0] !in r by {
        assert s[0] != x;
        forall j | 0 <= j < |rest| ensures rest[j] != s[0] {
          assert rest[j] == s[j + 1];
        }
        assert s[0] !in multiset(rest) + multiset{x};
      }
      forall i, j | 0 <= i < j < |[s[0]] + r| ensures ([s[0]] + r)[i] != ([s[0]] + r)[j] {
        assert ([s[0]] + r)[j] == r[j - 1];
        if i > 0 {
          assert ([s[0]] + r)[i] == r[i - 1];
        }
      }
    } else if s != [] {
      forall i, j | 0 <= i < j < |[x] + s| ensures ([x] + s)[i] != ([x] + s)[j] {
        assert ([x] + s)[j] == s[j - 1];
        if i > 0 {
          assert ([x] + s)[i] == s[i - 1];
        }
      }
    }
  }

  // ---- fetchScreens ----

  /**
   * The list after `fetchScreens` read a config whose actions have the given
   * screens (in `Object.values` order), or no actions at all.
   */
  function NextScreens(previous: seq<string>, actionScreens: Option<seq<string>>): seq<string> {
    if actionScreens.None? then previous
    else
      var unique := Dedup(actionScreens.value);
      if |unique| > 0 then Sort(unique) else previous
  }

  /**
   * With no actions, or actions without screens, the previous list stays;
   * otherwise the new list is sorted, has no repeats, and holds exactly the
   * screens the actions name.
   */
  lemma NextScreensSpec(previous: seq<string>, actionScreens: Option<seq<string>>)
    ensures actionScreens.None? || actionScreens.value == [] ==> NextScreens(previous, actionScreens) == previous
    ensures actionScreens.Some? && actionScreens.value != [] ==>
      var r := NextScreens(previous, actionScreens);
      && Sorted(r) && NoDup(r)
      && forall x :: x in r <==> x in actionScreens.value
  {
    if actionScreens.Some? {
      var xs := actionScreens.value;
      DedupElements(xs);
      if xs != [] {
        assert xs[0] in Dedup(xs);
        SortSorts(Dedup(xs));
        SortKeepsNoDup(Dedup(xs));
        forall x ensures x in Sort(Dedup(xs)) <==> x in xs {
          assert x in Sort(Dedup(xs)) <==> x in multiset(Sort(Dedup(xs)));
        }
      }
    }
  }

  /** The initial list is sorted without repeats, and a config whose actions name no screen keeps it. */
  lemma InitialScreensSorted()
    ensures Sorted(InitialScreens) && NoDup(InitialScreens)
    ensures NextScreens(InitialScreens, Some([])) == InitialScreens
  {
    assert LessEq("1", "2");
  }
}
