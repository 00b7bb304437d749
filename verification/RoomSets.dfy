/** The ordered sets of a room, as sequences: strictly rising, without repeats, and one sequence for one set. */
module RoomSets {
  import opened Numbers
  import opened RoomModel

  // ---- The orders, as numbers ----

  function IdRank(id: u64): int {
    id
  }

  /** Admissions compare as the number their three fields spell, member first. */
  function AdmissionRank(a: Admission): int {
    (a.member * 0x1_0000_0000_0000_0000 + a.owner) * 0x1_0000_0000_0000_0000 + a.generation
  }

  function GenerationRank(g: MarketGeneration): int {
    g.market * 0x1_0000_0000_0000_0000 + g.generation
  }

  lemma AdmissionsRank(a: Admission, b: Admission)
    ensures AdmissionLess(a, b) <==> AdmissionRank(a) < AdmissionRank(b)
    ensures AdmissionRank(a) == AdmissionRank(b) <==> a == b
  {
  }

  lemma GenerationsRank(g: MarketGeneration, h: MarketGeneration)
    ensures MarketGenerationLess(g, h) <==> GenerationRank(g) < GenerationRank(h)
    ensures GenerationRank(g) == GenerationRank(h) <==> g == h
  {
  }

  // ---- Rising sequences ----

  predicate Rising<T(!new)>(s: seq<T>, rank: T -> int) {
    forall i, j :: 0 <= i < j < |s| ==> rank(s[i]) < rank(s[j])
  }

  lemma {:induction false} Climbs<T(!new)>(s: seq<T>, less: (T, T) -> bool, rank: T -> int, i: nat, j: nat)
    requires (forall a, b :: less(a, b) <==> rank(a) < rank(b)) && Ascending(s, less) && i < j < |s|
    ensures rank(s[i]) < rank(s[j])
  {
    assert less(s[j - 1], s[j]);
    if i < j - 1 {
      Climbs(s, less, rank, i, j - 1);
    }
  }

  /** Neighbours in order are all in order. */
  lemma AscendingRises<T(!new)>(s: seq<T>, less: (T, T) -> bool, rank: T -> int)
    requires forall a, b :: less(a, b) <==> rank(a) < rank(b)
    ensures Ascending(s, less) <==> Rising(s, rank)
  {
    if Ascending(s, less) {
      forall i, j | 0 <= i < j < |s| ensures rank(s[i]) < rank(s[j]) {
        Climbs(s, less, rank, i, j);
      }
    }
    if Rising(s, rank) {
      forall i | 0 < i < |s| ensures less(s[i - 1], s[i]) {
        assert rank(s[i - 1]) < rank(s[i]);
      }
    }
  }

  /** Rising sequences of the same elements are the same sequence. */
  lemma {:induction false} OneSequence<T(!new)>(s: seq<T>, t: seq<T>, rank: T -> int)
    requires Rising(s, rank) && Rising(t, rank) && (forall x :: x in s <==> x in t)
    ensures s == t
  {
    EmptyTogether(s, t);
    if s != [] {
      var (a, b) := (s[|s| - 1], t[|t| - 1]);
      LastIsGreatest(t, rank, a);
      LastIsGreatest(s, rank, b);
      var (s', t') := (s[..|s| - 1], t[..|t| - 1]);
      assert s == s' + [a] && t == t' + [b];
      forall x ensures x in s' <==> x in t' {
        if x in s' {
          assert x in s && rank(x) < rank(a);
        }
        if x in t' {
          assert x in t && rank(x) < rank(b);
        }
      }
      OneSequence(s', t', rank);
    }
  }

  lemma EmptyTogether<T>(s: seq<T>, t: seq<T>)
    requires forall x :: x in s <==> x in t
    ensures s == [] <==> t == []
  {
    if s != [] {
      assert s[0] in s;
    }
    if t != [] {
      assert t[0] in t;
    }
  }

  lemma LastIsGreatest<T(!new)>(s: seq<T>, rank: T -> int, x: T)
    requires Rising(s, rank) && x in s
    ensures rank(x) <= rank(s[|s| - 1])
    ensures rank(x) == rank(s[|s| - 1]) ==> x == s[|s| - 1]
  {
    var i :| 0 <= i < |s| && s[i] == x;
    assert i == |s| - 1 || rank(s[i]) < rank(s[|s| - 1]);
  }

  // ---- The sets of a room ----

  /** A list is a set of identifiers exactly when it rises strictly, and one set is one list. */
  lemma IdSetsCanonical(s: seq<u64>, t: seq<u64>)
    ensures Ascending(s, IdLess) <==> Rising(s, IdRank)
    ensures Ascending(s, IdLess) && Ascending(t, IdLess) && (forall x :: x in s <==> x in t) ==> s == t
  {
    AscendingRises(s, IdLess, IdRank);
    AscendingRises(t, IdLess, IdRank);
    if Rising(s, IdRank) && Rising(t, IdRank) && (forall x :: x in s <==> x in t) {
      OneSequence(s, t, IdRank);
    }
  }

  /** The same for admitted members, ordered by member, then owner, then generation. */
  lemma AdmissionSetsCanonical(s: seq<Admission>, t: seq<Admission>)
    ensures Ascending(s, AdmissionLess) <==> Rising(s, AdmissionRank)
    ensures Ascending(s, AdmissionLess) && Ascending(t, AdmissionLess) && (forall x :: x in s <==> x in t) ==> s == t
  {
    hide AdmissionLess, AdmissionRank;
    forall a, b ensures AdmissionLess(a, b) <==> AdmissionRank(a) < AdmissionRank(b) {
      AdmissionsRank(a, b);
    }
    AscendingRises(s, AdmissionLess, AdmissionRank);
    AscendingRises(t, AdmissionLess, AdmissionRank);
    if Rising(s, AdmissionRank) && Rising(t, AdmissionRank) && (forall x :: x in s <==> x in t) {
      OneSequence(s, t, AdmissionRank);
    }
  }

  /** The same for admitted market generations, ordered by market, then generation. */
  lemma GenerationSetsCanonical(s: seq<MarketGeneration>, t: seq<MarketGeneration>)
    ensures Ascending(s, MarketGenerationLess) <==> Rising(s, GenerationRank)
    ensures Ascending(s, MarketGenerationLess) && Ascending(t, MarketGenerationLess) && (forall x :: x in s <==> x in t)
            ==> s == t
  {
    hide MarketGenerationLess, GenerationRank;
    forall g, h ensures MarketGenerationLess(g, h) <==> GenerationRank(g) < GenerationRank(h) {
      GenerationsRank(g, h);
    }
    AscendingRises(s, MarketGenerationLess, GenerationRank);
    AscendingRises(t, MarketGenerationLess, GenerationRank);
    if Rising(s, GenerationRank) && Rising(t, GenerationRank) && (forall x :: x in s <==> x in t) {
      OneSequence(s, t, GenerationRank);
    }
  }
}
