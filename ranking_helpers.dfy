/** Hit counting for the ranking (frontend/src/utils/rankingHelpers.ts):
    which of a ticket's numbers a draw hit, and the accumulated, duplicate-
    free hits over every draw that took place at or after the ticket was
    created. Dates are instants given as integers. */
module RankingHelpers {
  import opened Wrappers
  import opened Seqs
  import opened Sorting

  /** A published draw: its identifier, the numbers drawn and when. */
  datatype Draw = Draw(id: string, numbers: seq<int>, drawDate: int)

  /** The shape `getAllHitNumbers` accepts: drawn numbers with a date that
      may be missing. */
  datatype DatedNumbers = DatedNumbers(numbers: seq<int>, drawDate: Option<int>)

  function Dated(d: Draw): DatedNumbers {
    DatedNumbers(d.numbers, Some(d.drawDate))
  }

  /** Membership in the set built from a draw's numbers. */
  function InDraw(drawNumbers: seq<int>): int -> bool {
    n => n in drawNumbers
  }

  /** `calculateHits`: how many entries of the ticket occur in the draw. */
  function CalculateHits(drawNumbers: seq<int>, participationNumbers: seq<int>): (r: nat)
    ensures r <= |participationNumbers|
    ensures r == |participationNumbers| <==>
              forall i :: 0 <= i < |participationNumbers| ==> participationNumbers[i] in drawNumbers
    ensures r == 0 <==>
              forall i :: 0 <= i < |participationNumbers| ==> participationNumbers[i] !in drawNumbers
  {
    FilterLength(participationNumbers, InDraw(drawNumbers));
    |Filter(participationNumbers, InDraw(drawNumbers))|
  }

  /** Each occurrence of a hit number in the ticket is counted once more. */
  lemma CalculateHitsAppend(drawNumbers: seq<int>, participationNumbers: seq<int>, n: int)
    ensures CalculateHits(drawNumbers, participationNumbers + [n])
         == CalculateHits(drawNumbers, participationNumbers) + (if n in drawNumbers then 1 else 0)
  {
    FilterConcat(participationNumbers, [n], InDraw(drawNumbers));
  }

  /** `getHitNumbers`: the ticket's numbers that the draw hit, ascending. */
  function GetHitNumbers(drawNumbers: seq<int>, participationNumbers: seq<int>): (r: seq<int>)
    ensures Ascending(r)
    ensures forall n :: n in r <==> n in participationNumbers && n in drawNumbers
    ensures |r| == CalculateHits(drawNumbers, participationNumbers)
    ensures forall n :: multiset(r)[n] == if n in drawNumbers then multiset(participationNumbers)[n] else 0
  {
    var hits := Filter(participationNumbers, InDraw(drawNumbers));
    FilterMembership(participationNumbers, InDraw(drawNumbers));
    FilterCounts(participationNumbers, InDraw(drawNumbers));
    SortAscendingMembers(hits);
    SortAscending(hits)
  }

  /** Whether a draw took place at or after the ticket's creation. */
  function DrawnSince(createdAt: int): Draw -> bool {
    (d: Draw) => d.drawDate >= createdAt
  }

  /** `filterValidDraws`: the anti-fraud filter. */
  function FilterValidDraws(draws: seq<Draw>, createdAt: int): (r: seq<Draw>)
    ensures forall d :: d in r <==> d in draws && d.drawDate >= createdAt
    ensures Subsequence(r, draws)
  {
    FilterMembership(draws, DrawnSince(createdAt));
    FilterSubsequence(draws, DrawnSince(createdAt));
    Filter(draws, DrawnSince(createdAt))
  }

  /** The draws `getAllHitNumbers` counts: with a creation date, those that
      carry a date not before it; without one, all of them. */
  function ValidDated(draws: seq<DatedNumbers>, createdAt: Option<int>): (r: seq<DatedNumbers>)
    ensures forall d :: d in r <==>
              d in draws && (createdAt.Some? ==> d.drawDate.Some? && d.drawDate.value >= createdAt.value)
  {
    if createdAt.Some? then
      var p := (d: DatedNumbers) => d.drawDate.Some? && d.drawDate.value >= createdAt.value;
      FilterMembership(draws, p);
      Filter(draws, p)
    else draws
  }

  /** Number `n` was drawn in at least one of `draws`. */
  predicate HitBy(draws: seq<DatedNumbers>, n: int) {
    exists d :: d in draws && n in d.numbers
  }

  function HitIn(draws: seq<DatedNumbers>): int -> bool {
    n => HitBy(draws, n)
  }

  /** Reference definition of `getAllHitNumbers`: the ticket's numbers that
      some counted draw hit, each once, ascending. A ticket never hits more
      numbers than it has, nor a number it does not have. */
  function AllHitNumbers(participationNumbers: seq<int>, draws: seq<DatedNumbers>,
                         createdAt: Option<int>): (r: seq<int>)
    ensures |r| <= |participationNumbers|
    ensures forall n :: n in r ==> n in participationNumbers
  {
    if |draws| == 0 then []
    else
      var hits := Filter(participationNumbers, HitIn(ValidDated(draws, createdAt)));
      FilterMembership(participationNumbers, HitIn(ValidDated(draws, createdAt)));
      DedupSpec(hits);
      SortAscendingMembers(Dedup(hits));
      SortAscending(Dedup(hits))
  }

  /** An ascending permutation of a duplicate-free sequence is strictly
      ascending and has the same elements. */
  lemma SortedDistinct(a: seq<int>)
    requires Distinct(a)
    ensures StrictlyAscending(SortAscending(a))
    ensures forall n :: n in SortAscending(a) <==> n in a
  {
    var r := SortAscending(a);
    DistinctPermutation(a, r);
    AscendingDistinct(r);
    assert forall n :: n in r <==> n in multiset(a);
  }

  /** What `getAllHitNumbers` promises: sorted, duplicate-free, and exactly
      the ticket numbers hit by a draw that counts. */
  lemma {:induction false} AllHitNumbersSpec(participationNumbers: seq<int>, draws: seq<DatedNumbers>,
                                             createdAt: Option<int>)
    ensures |draws| == 0 ==> AllHitNumbers(participationNumbers, draws, createdAt) == []
    ensures StrictlyAscending(AllHitNumbers(participationNumbers, draws, createdAt))
    ensures forall n :: n in AllHitNumbers(participationNumbers, draws, createdAt) <==>
              n in participationNumbers && HitBy(ValidDated(draws, createdAt), n)
  {
    if |draws| > 0 {
      var valid := ValidDated(draws, createdAt);
      var hits := Filter(participationNumbers, HitIn(valid));
      FilterMembership(participationNumbers, HitIn(valid));
      DedupSpec(hits);
      SortedDistinct(Dedup(hits));
    }
  }

  /** Anti-fraud: a number is credited only through a draw that carries a
      date not before the ticket's creation. */
  lemma AllHitNumbersAntiFraud(participationNumbers: seq<int>, draws: seq<DatedNumbers>,
                               createdAt: int, n: int)
    requires n in AllHitNumbers(participationNumbers, draws, Some(createdAt))
    ensures exists d :: d in draws && d.drawDate.Some? && d.drawDate.value >= createdAt && n in d.numbers
  {
    AllHitNumbersSpec(participationNumbers, draws, Some(createdAt));
  }

  /** Only which draws are given matters, not their order or repetition. */
  lemma AllHitNumbersOrderIndependent(participationNumbers: seq<int>, d1: seq<DatedNumbers>,
                                      d2: seq<DatedNumbers>, createdAt: Option<int>)
    requires forall d :: d in d1 <==> d in d2
    ensures AllHitNumbers(participationNumbers, d1, createdAt)
         == AllHitNumbers(participationNumbers, d2, createdAt)
  {
    AllHitNumbersSpec(participationNumbers, d1, createdAt);
    AllHitNumbersSpec(participationNumbers, d2, createdAt);
    var v1, v2 := ValidDated(d1, createdAt), ValidDated(d2, createdAt);
    assert forall n :: HitBy(v1, n) <==> HitBy(v2, n);
    StrictlyAscendingUnique(AllHitNumbers(participationNumbers, d1, createdAt),
                            AllHitNumbers(participationNumbers, d2, createdAt));
  }

  /** Accumulation: a further draw never takes a number away, so the score
      `AllHitNumbers(...).length` never decreases. */
  lemma AllHitNumbersMonotone(participationNumbers: seq<int>, draws: seq<DatedNumbers>,
                              d: DatedNumbers, createdAt: Option<int>)
    ensures forall n :: n in AllHitNumbers(participationNumbers, draws, createdAt) ==>
              n in AllHitNumbers(participationNumbers, draws + [d], createdAt)
    ensures |AllHitNumbers(participationNumbers, draws, createdAt)|
         <= |AllHitNumbers(participationNumbers, draws + [d], createdAt)|
  {
    AllHitNumbersSpec(participationNumbers, draws, createdAt);
    AllHitNumbersSpec(participationNumbers, draws + [d], createdAt);
    var v1, v2 := ValidDated(draws, createdAt), ValidDated(draws + [d], createdAt);
    assert forall n :: HitBy(v1, n) ==> HitBy(v2, n);
    StrictlyAscendingWithin(AllHitNumbers(participationNumbers, draws, createdAt),
                            AllHitNumbers(participationNumbers, draws + [d], createdAt));
  }

  lemma HitByPrefix(draws: seq<DatedNumbers>, i: nat, n: int)
    requires i < |draws|
    ensures HitBy(draws[..i + 1], n) <==> HitBy(draws[..i], n) || n in draws[i].numbers
  {
    assert draws[..i + 1] == draws[..i] + [draws[i]];
    if HitBy(draws[..i + 1], n) {
      var d :| d in draws[..i + 1] && n in d.numbers;
    }
  }

  /** `hits.forEach(num => set.add(num))` on a `Set` represented by its
      elements in insertion order. */
  method AddAll(set0: seq<int>, hits: seq<int>) returns (set1: seq<int>)
    requires Distinct(set0)
    ensures Distinct(set1)
    ensures forall n :: n in set1 <==> n in set0 || n in hits
  {
    set1 := set0;
    var j := 0;
    while j < |hits|
      invariant 0 <= j <= |hits|
      invariant Distinct(set1)
      invariant forall n :: n in set1 <==> n in set0 || n in hits[..j]
    {
      assert hits[..j + 1] == hits[..j] + [hits[j]];
      if hits[j] !in set1 {
        set1 := set1 + [hits[j]];
      }
      j := j + 1;
    }
    assert hits[..j] == hits;
  }

  /** `getAllHitNumbers` as written: the numbers hit in each counted draw
      are added, draw after draw, to a `Set`, whose contents are then
      sorted. */
  method GetAllHitNumbers(participationNumbers: seq<int>, draws: seq<DatedNumbers>,
                          createdAt: Option<int>) returns (r: seq<int>)
    ensures r == AllHitNumbers(participationNumbers, draws, createdAt)
  {
    if |draws| == 0 {
      return [];
    }
    var validDraws := ValidDated(draws, createdAt);
    // the Set, as its elements in insertion order
    var allHits: seq<int> := [];
    var i := 0;
    while i < |validDraws|
      invariant 0 <= i <= |validDraws|
      invariant Distinct(allHits)
      invariant forall n :: n in allHits <==> n in participationNumbers && HitBy(validDraws[..i], n)
    {
      var hits := GetHitNumbers(validDraws[i].numbers, participationNumbers);
      allHits := AddAll(allHits, hits);
      forall n
        ensures n in allHits <==> n in participationNumbers && HitBy(validDraws[..i + 1], n)
      {
        HitByPrefix(validDraws, i, n);
      }
      i := i + 1;
    }
    assert validDraws[..i] == validDraws;
    r := SortAscending(allHits);
    SortedDistinct(allHits);
    AllHitNumbersSpec(participationNumbers, draws, createdAt);
    StrictlyAscendingUnique(r, AllHitNumbers(participationNumbers, draws, createdAt));
  }
}
