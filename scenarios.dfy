/** The behaviour of the routes on the three seed records. */
module Scenarios {
  import opened Wrappers
  import opened Text
  import opened Catalogue
  import opened Query
  import opened Stats
  import opened Routes

  /** The statistics of the seed store: two electronics records, one kitchen
      record. */
  lemma SeedStatistics()
    ensures CategoryStats(Seed()).payload.stats == map["electronics" := 2, "kitchen" := 1]
  {
    var s := Seed();
    assert s[..2][..1] == [s[0]];
    assert s[..2] == [s[0], s[1]];
    assert s[..1][..0] == [];
  }

  /** Asking for category "electronics" returns the laptop and the
      smartphone, with a total of 2. */
  lemma SeedElectronics(ps: seq<Product>, q: ListQuery)
    requires ps == Seed() && q == ListQuery(Some("electronics"), None, None, None)
    ensures ListProducts(ps, q).payload == Listing(1, 2, 2, [ps[0], ps[1]])
  {
    ElectronicsFiltered(ps, q);
    DefaultsFallBack(ps, q);
  }

  lemma ElectronicsFiltered(ps: seq<Product>, q: ListQuery)
    requires ps == Seed() && q == ListQuery(Some("electronics"), None, None, None)
    ensures Filtered(ps, q) == [ps[0], ps[1]]
  {
    ElectronicsMatches(ps);
    FilterDropsThird(ps, InCategory("electronics"));
    FilteredByCategoryOnly(ps, q);
  }

  /** Which seed records the category filter "electronics" accepts. */
  lemma ElectronicsMatches(ps: seq<Product>)
    requires ps == Seed()
    ensures InCategory("electronics")(ps[0]) && InCategory("electronics")(ps[1])
    ensures !InCategory("electronics")(ps[2])
  {
    assert ps[0].category == ps[1].category == "electronics";
    assert |ps[2].category| == 7;
    assert |ToLower(ps[2].category)| != |ToLower("electronics")|;
  }

  /** Filtering a three-element sequence, step by step. */
  lemma FilterOfThree<T(!new)>(a: T, b: T, c: T, keep: T -> bool)
    ensures Filter([a, b, c], keep) ==
      (if keep(a) then [a] else []) + (if keep(b) then [b] else []) + (if keep(c) then [c] else [])
  {
    assert [a, b, c][..2] == [a, b];
    assert [a, b][..1] == [a];
    assert [a][..0] == [];
    assert Filter([a], keep) == (if keep(a) then [a] else []);
    assert Filter([a, b], keep) == Filter([a], keep) + (if keep(b) then [b] else []);
    assert Filter([a, b, c], keep) == Filter([a, b], keep) + (if keep(c) then [c] else []);
  }

  /** Filtering three elements of which only the last is rejected. */
  lemma FilterDropsThird<T(!new)>(s: seq<T>, keep: T -> bool)
    requires |s| == 3 && keep(s[0]) && keep(s[1]) && !keep(s[2])
    ensures Filter(s, keep) == [s[0], s[1]]
  {
    assert s == [s[0], s[1], s[2]];
    FilterOfThree(s[0], s[1], s[2], keep);
  }

  /** Page 1 with limit 2 over the three seed records shows two of them and
      reports a total of 3. */
  lemma SeedFirstPageOfTwo()
    ensures var L := ListProducts(Seed(), ListQuery(None, None, Some(1), Some(2))).payload;
      L.total == 3 && L.data == Seed()[..2]
  {
  }
}
