/** The list of known preparers the entry form offers (main_app): five fixed
    names, then every upper-cased 'zubereitet' label of the loaded frame that
    is not yet in the list, and the whole list sorted. A frame with an empty
    'zubereitet' cell makes the code as written raise TypeError in the sort;
    KnownPreparers is the version that skips such cells. */
module Registry {
  import opened Wrappers
  import opened Text
  import opened Sorting
  import opened Normalize

  /** The names offered before any row has been read. */
  const Seed: seq<string> := ["OG1", "OG2", "CHEF", "IDIOT", "ANDERE"]

  predicate NoDuplicates<T(==)>(s: seq<T>) {
    forall i, j :: 0 <= i < j < |s| ==> s[i] != s[j]
  }

  lemma SeedDistinct()
    ensures NoDuplicates(Seed)
  {
    assert "OG1"[2] != "OG2"[2];
    forall i, j | 0 <= i < j < 5 ensures Seed[i] != Seed[j] {
      assert Seed[i][0] != Seed[j][0] || |Seed[i]| != |Seed[j]| || Seed[i][2] != Seed[j][2];
    }
  }

  /** df['zubereitet'].str.upper(): an empty cell stays empty. */
  function UpperCells(frame: seq<Kebap>): (us: seq<Option<string>>)
    ensures |us| == |frame|
    ensures forall i :: 0 <= i < |frame| ==>
              us[i] == if frame[i].preparer.Some? then Some(Upper(frame[i].preparer.value)) else None
  {
    seq(|frame|, i requires 0 <= i < |frame| =>
      if frame[i].preparer.Some? then Some(Upper(frame[i].preparer.value)) else None)
  }

  /** Series.unique(): every value once, in the order of first appearance. */
  function Unique<T(==,!new)>(xs: seq<T>): (u: seq<T>)
    ensures forall x :: x in u <==> x in xs
    ensures NoDuplicates(u)
  {
    if xs == [] then []
    else
      var u := Unique(xs[..|xs| - 1]);
      assert forall x :: x in xs <==> x in xs[..|xs| - 1] || x == xs[|xs| - 1] by {
        assert xs == xs[..|xs| - 1] + [xs[|xs| - 1]];
      }
      if xs[|xs| - 1] in u then u else u + [xs[|xs| - 1]]
  }

  /** The for loop over db_preparers: each value not yet in the list is appended. */
  function Merge<T(==,!new)>(known: seq<T>, ps: seq<T>): (r: seq<T>)
    ensures forall x :: x in r <==> x in known || x in ps
    ensures |known| <= |r| && r[..|known|] == known
    ensures NoDuplicates(known) ==> NoDuplicates(r)
  {
    if ps == [] then known
    else
      var m := Merge(known, ps[..|ps| - 1]);
      assert forall x :: x in ps <==> x in ps[..|ps| - 1] || x == ps[|ps| - 1] by {
        assert ps == ps[..|ps| - 1] + [ps[|ps| - 1]];
      }
      if ps[|ps| - 1] in m then m
      else
        assert (m + [ps[|ps| - 1]])[..|known|] == m[..|known|];
        m + [ps[|ps| - 1]]
  }

  /** A list without duplicates holds each value at most once, and the other way round. */
  lemma {:induction false} NoDuplicatesMultiset<T>(s: seq<T>)
    ensures NoDuplicates(s) <==> forall x :: multiset(s)[x] <= 1
  {
    if s != [] {
      var t := s[1..];
      assert s == [s[0]] + t;
      NoDuplicatesMultiset(t);
      if NoDuplicates(s) {
        assert NoDuplicates(t) by {
          forall i, j | 0 <= i < j < |t| ensures t[i] != t[j] { assert t[i] == s[i + 1] && t[j] == s[j + 1]; }
        }
        assert s[0] !in t;
      }
      if forall x :: multiset(s)[x] <= 1 {
        assert forall x :: multiset(t)[x] <= multiset(s)[x];
        assert multiset(t)[s[0]] == 0;
        forall i, j | 0 <= i < j < |s| ensures s[i] != s[j] {
          if i == 0 {
            assert s[j] == t[j - 1];
            assert s[j] in multiset(t);
          } else {
            assert s[i] == t[i - 1] && s[j] == t[j - 1];
          }
        }
      }
    }
  }

  // ---- the code as written ----

  /** list.sort() on a list that may hold NaN (None here). A comparison sort
      compares every pair of neighbours of its output, so a list holding both
      NaN and a str compares the two and raises TypeError (the outer None). */
  function ListSort(xs: seq<Option<string>>): (r: Option<seq<Option<string>>>)
    ensures (exists i, j :: 0 <= i < |xs| && 0 <= j < |xs| && xs[i].None? && xs[j].Some?) <==> r.None?
    ensures r.Some? ==> |r.value| == |xs| && forall y :: y in r.value <==> y in xs
  {
    if exists i :: 0 <= i < |xs| && xs[i].Some? then
      if exists i :: 0 <= i < |xs| && xs[i].None? then None
      else
        var v := Values(xs);
        SortStringsElements(v);
        assert forall y :: y in xs <==> y.Some? && y.value in v;
        Some(Lift(SortStrings(v)))
    else Some(xs)
  }

  function Lift(s: seq<string>): (r: seq<Option<string>>)
    ensures |r| == |s| && forall i :: 0 <= i < |s| ==> r[i] == Some(s[i])
  {
    seq(|s|, i requires 0 <= i < |s| => Some(s[i]))
  }

  /** The texts of a list that holds no NaN. */
  function Values(xs: seq<Option<string>>): (r: seq<string>)
    requires forall i :: 0 <= i < |xs| ==> xs[i].Some?
    ensures Lift(r) == xs
  {
    seq(|xs|, i requires 0 <= i < |xs| => xs[i].value)
  }

  /** known_preparers as main_app computes it: the seed list for an empty frame,
      otherwise the merged list handed to list.sort(); None when that raises. */
  function KnownPreparersAsWritten(frame: seq<Kebap>): (r: Option<seq<Option<string>>>)
    ensures r.Some? ==> forall x :: x in Seed ==> Some(x) in r.value
  {
    if |frame| == 0 then Some(Lift(Seed))
    else ListSort(Merge(Lift(Seed), Unique(UpperCells(frame))))
  }

  /** Any row with an empty 'zubereitet' cell makes the screen fail. */
  lemma MissingPreparerRaises(frame: seq<Kebap>, k: nat)
    requires k < |frame| && frame[k].preparer.None?
    ensures KnownPreparersAsWritten(frame).None?
  {
    var us := UpperCells(frame);
    var m := Merge(Lift(Seed), Unique(us));
    assert us[k] == None;
    assert None in m;
    var i :| 0 <= i < |m| && m[i] == None;
    assert m[0] == Some("OG1") by { assert m[..|Lift(Seed)|] == Lift(Seed); }
  }

  /** One concrete frame: a single row whose preparer cell is empty. */
  lemma EmptyPreparerExample(row: Kebap)
    requires row.preparer.None?
    ensures KnownPreparersAsWritten([row]) == None
  {
    MissingPreparerRaises([row], 0);
  }

  // ---- the corrected registry ----

  /** Every row has a 'zubereitet' label. */
  predicate NoneMissing(frame: seq<Kebap>) {
    forall i :: 0 <= i < |frame| ==> frame[i].preparer.Some?
  }

  /** The labels of the non-empty 'zubereitet' cells, upper-cased: the same
      list as UpperCells with the missing cells dropped. */
  function PresentUppers(frame: seq<Kebap>): (ps: seq<string>)
    ensures forall x :: x in ps <==> exists i :: 0 <= i < |frame| && frame[i].preparer.Some? && Upper(frame[i].preparer.value) == x
    ensures Lift(ps) == UpperCells(frame) <==> NoneMissing(frame)
  {
    if frame == [] then []
    else
      var rest := PresentUppers(frame[1..]);
      var us := UpperCells(frame);
      assert us == UpperCells([frame[0]]) + UpperCells(frame[1..]);
      if frame[0].preparer.Some? then
        assert Lift([Upper(frame[0].preparer.value)] + rest) == Lift([Upper(frame[0].preparer.value)]) + Lift(rest);
        [Upper(frame[0].preparer.value)] + rest
      else
        rest
  }

  /** Sorting a list without repetitions gives a list without repetitions. */
  lemma SortKeepsNoDuplicates(s: seq<string>)
    requires NoDuplicates(s)
    ensures NoDuplicates(SortStrings(s))
  {
    NoDuplicatesMultiset(s);
    NoDuplicatesMultiset(SortStrings(s));
  }

  /** known_preparers with the empty cells skipped: the seed list when the
      frame is empty, otherwise a sorted list holding exactly the seed names
      and the upper-cased labels of the frame, each once. */
  method KnownPreparers(frame: seq<Kebap>) returns (known: seq<string>)
    ensures |frame| == 0 ==> known == Seed
    ensures |frame| > 0 ==> Sorted(known)
    ensures forall x :: x in known <==> x in Seed || exists i :: 0 <= i < |frame| && frame[i].preparer.Some? && Upper(frame[i].preparer.value) == x
    ensures NoDuplicates(known)
  {
    known := Seed;
    if |frame| > 0 {
      var db := Unique(PresentUppers(frame));
      var i := 0;
      while i < |db|
        invariant 0 <= i <= |db|
        invariant known == Merge(Seed, db[..i])
      {
        assert db[..i + 1][..i] == db[..i];
        if db[i] !in known {
          known := known + [db[i]];
        }
        i := i + 1;
      }
      assert db[..i] == db;
      SeedDistinct();
      SortStringsElements(known);
      SortKeepsNoDuplicates(known);
      known := SortStrings(known);
    }
  }

  lemma {:induction false} UniqueLift(ps: seq<string>)
    ensures Unique(Lift(ps)) == Lift(Unique(ps))
  {
    if ps != [] {
      var init := ps[..|ps| - 1];
      assert Lift(ps)[..|ps| - 1] == Lift(init);
      UniqueLift(init);
      assert Some(ps[|ps| - 1]) in Lift(Unique(init)) <==> ps[|ps| - 1] in Unique(init);
      assert Lift(Unique(init) + [ps[|ps| - 1]]) == Lift(Unique(init)) + [Some(ps[|ps| - 1])];
    }
  }

  lemma {:induction false} MergeLift(known: seq<string>, ps: seq<string>)
    ensures Merge(Lift(known), Lift(ps)) == Lift(Merge(known, ps))
  {
    if ps != [] {
      var init := ps[..|ps| - 1];
      assert Lift(ps)[..|ps| - 1] == Lift(init);
      MergeLift(known, init);
      var m := Merge(known, init);
      assert Some(ps[|ps| - 1]) in Lift(m) <==> ps[|ps| - 1] in m;
      assert Lift(m + [ps[|ps| - 1]]) == Lift(m) + [Some(ps[|ps| - 1])];
    }
  }

  /** A list of texts holds no NaN, so list.sort() succeeds on it. */
  lemma ListSortOfTexts(m: seq<string>)
    requires |m| > 0
    ensures ListSort(Lift(m)) == Some(Lift(SortStrings(m)))
  {
    assert Lift(m)[0].Some?;
    assert Values(Lift(m)) == m;
  }

  /** Where no cell is empty the code as written does not raise: it sorts the
      list the corrected loop builds. */
  lemma AsWrittenAgreesWithoutMissing(frame: seq<Kebap>)
    requires |frame| > 0
    requires NoneMissing(frame)
    ensures KnownPreparersAsWritten(frame) == Some(Lift(SortStrings(Merge(Seed, Unique(PresentUppers(frame))))))
  {
    var ps := PresentUppers(frame);
    calc {
      KnownPreparersAsWritten(frame);
      ListSort(Merge(Lift(Seed), Unique(Lift(ps))));
      { UniqueLift(ps); }
      ListSort(Merge(Lift(Seed), Lift(Unique(ps))));
      { MergeLift(Seed, Unique(ps)); }
      ListSort(Lift(Merge(Seed, Unique(ps))));
      { ListSortOfTexts(Merge(Seed, Unique(ps))); }
      Some(Lift(SortStrings(Merge(Seed, Unique(ps)))));
    }
  }
}
