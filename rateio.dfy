/** The alternative prize split (frontend/src/utils/rateioCalculator.ts,
    `calculateRateio`). Unlike the ranking engine it checks that the four
    percentages add up to 100, takes the administrative fee off the total
    first and applies the category percentages to what is left, and picks
    its three tiers among the distinct positive scores: the highest, the
    next one below it, and the lowest when it is below both. Amounts are
    reals: the floating-point rounding of the source is not modelled. */
module RateioCalculator {
  import opened Wrappers
  import opened Seqs
  import opened Sorting
  import RankingCalculator

  /** Percentages of the split; `DefaultConfig` is the default argument. */
  datatype RateioConfig = RateioConfig(maior: real, segunda: real, menor: real, taxa: real)

  const DefaultConfig := RateioConfig(65.0, 10.0, 7.0, 18.0)

  /** A participation with its stored score; `userName` is the joined user's
      name, `None` when there is no joined user. */
  datatype ScoredParticipation = ScoredParticipation(
    currentScore: int,
    userId: string,
    id: string,
    ticketCode: Option<string>,
    userName: Option<string>)

  datatype Tier = Maior | Segunda | Menor

  /** The `categoria` text of each tier. */
  function Label(tier: Tier): string {
    match tier
    case Maior => "Maior Pontuação"
    case Segunda => "Segunda Maior Pontuação"
    case Menor => "Menor Pontuação"
  }

  datatype Distribution = Distribution(
    categoria: Tier,
    pontuacao: int,
    quantidadeGanhadores: nat,
    valorPorGanhador: real,
    valorTotal: real,
    percentual: real)

  datatype Winner = Winner(
    userId: string,
    userName: string,
    participationId: string,
    ticketCode: Option<string>,
    pontuacao: int,
    categoria: Tier,
    valorPremio: real)

  datatype RateioResult = RateioResult(
    totalArrecadado: real,
    taxaAdministrativa: real,
    valorPremiacao: real,
    distribuicao: seq<Distribution>,
    ganhadores: seq<Winner>)

  /** The error thrown when the percentages do not add up to 100. */
  datatype RateioError = PercentSumNot100(totalPercent: real)

  function Abs(x: real): real {
    if x < 0.0 then -x else x
  }

  function TotalPercent(config: RateioConfig): real {
    config.maior + config.segunda + config.menor + config.taxa
  }

  /** The configuration passes the 0.01 tolerance check. */
  predicate PercentsValid(config: RateioConfig) {
    Abs(TotalPercent(config) - 100.0) <= 0.01
  }

  // ---------------------------------------------------------------------
  // Scores and tiers
  // ---------------------------------------------------------------------

  function Scores(ps: seq<ScoredParticipation>): (r: seq<int>)
    ensures |r| == |ps|
    ensures forall i :: 0 <= i < |ps| ==> r[i] == ps[i].currentScore
  {
    if ps == [] then [] else [ps[0].currentScore] + Scores(ps[1..])
  }

  /** Some participation has score `x`. */
  predicate ScoredBy(ps: seq<ScoredParticipation>, x: int) {
    exists i :: 0 <= i < |ps| && ps[i].currentScore == x
  }

  /** Some participation has a positive score. */
  predicate HasPositive(ps: seq<ScoredParticipation>) {
    exists i :: 0 <= i < |ps| && ps[i].currentScore > 0
  }

  function IsPositive(): int -> bool {
    x => x > 0
  }

  ghost predicate Descending(s: seq<int>) {
    forall i, j :: 0 <= i < j < |s| ==> s[i] >= s[j]
  }

  /** The comparator `(a, b) => b - a`. */
  function DescKey(x: int): Key {
    (-x, 0)
  }

  function SortDescending(s: seq<int>): (r: seq<int>)
    ensures |r| == |s|
    ensures forall x :: x in r <==> x in s
    ensures Descending(r)
  {
    var r := SortBy(s, DescKey);
    SortBySorted(s, DescKey);
    assert forall x :: x in r <==> x in multiset(r);
    assert forall i, j :: 0 <= i < j < |r| ==> KeyLe(DescKey(r[i]), DescKey(r[j]));
    r
  }

  /** `pontuacoes`: the positive scores, highest first, with repetitions. */
  function Pontuacoes(ps: seq<ScoredParticipation>): seq<int> {
    SortDescending(Filter(Scores(ps), IsPositive()))
  }

  lemma PontuacoesMembers(ps: seq<ScoredParticipation>)
    ensures forall x :: x in Pontuacoes(ps) <==> x > 0 && ScoredBy(ps, x)
    ensures |Pontuacoes(ps)| > 0 <==> HasPositive(ps)
  {
    var pont := Pontuacoes(ps);
    PontuacoesIn(ps);
    if HasPositive(ps) {
      var i :| 0 <= i < |ps| && ps[i].currentScore > 0;
      assert ScoredBy(ps, ps[i].currentScore);
      assert ps[i].currentScore in pont;
    }
    if |pont| > 0 {
      assert pont[0] in pont;
      var i :| 0 <= i < |ps| && ps[i].currentScore == pont[0];
    }
  }

  lemma PontuacoesIn(ps: seq<ScoredParticipation>)
    ensures forall x :: x in Pontuacoes(ps) <==> x > 0 && ScoredBy(ps, x)
  {
    var scores := Scores(ps);
    var positive := Filter(scores, IsPositive());
    ScoresMembers(ps);
    FilterMembership(scores, IsPositive());
    assert Pontuacoes(ps) == SortDescending(positive);
  }

  lemma ScoresMembers(ps: seq<ScoredParticipation>)
    ensures forall x :: x in Scores(ps) <==> ScoredBy(ps, x)
  {
    var scores := Scores(ps);
    forall x | x in scores ensures ScoredBy(ps, x) {
      var i :| 0 <= i < |scores| && scores[i] == x;
    }
    forall x | ScoredBy(ps, x) ensures x in scores {
      var i :| 0 <= i < |ps| && ps[i].currentScore == x;
      assert scores[i] == x;
    }
  }

  /** `s.find(x => x < m)`. */
  function FindBelow(s: seq<int>, m: int): Option<int> {
    if s == [] then None
    else if s[0] < m then Some(s[0])
    else FindBelow(s[1..], m)
  }

  /** On a descending sequence the first element below `m` is the largest
      element below `m`. */
  lemma {:induction false} FindBelowSpec(s: seq<int>, m: int)
    requires Descending(s)
    ensures FindBelow(s, m).Some? <==> exists i :: 0 <= i < |s| && s[i] < m
    ensures FindBelow(s, m).Some? ==>
              FindBelow(s, m).value in s && FindBelow(s, m).value < m &&
              forall i :: 0 <= i < |s| && s[i] < m ==> s[i] <= FindBelow(s, m).value
  {
    if s != [] && s[0] >= m {
      assert Descending(s[1..]) by {
        forall i, j | 0 <= i < j < |s[1..]| ensures s[1..][i] >= s[1..][j] {
          assert s[1..][i] == s[i + 1] && s[1..][j] == s[j + 1];
        }
      }
      FindBelowSpec(s[1..], m);
      assert forall i :: 1 <= i < |s| ==> s[i] == s[1..][i - 1];
      if FindBelow(s, m).None? {
        forall i | 0 <= i < |s| ensures s[i] >= m {
          if i > 0 {
            assert s[1..][i - 1] == s[i];
          }
        }
      }
    }
  }

  /** `x || null`: a falsy (zero) score reads as absent. */
  function OrNull(x: Option<int>): Option<int> {
    if x.Some? && x.value != 0 then x else None
  }

  /** The three tier scores: `maiorPontuacao`, `segundaMaiorPontuacao` and
      `menorPontuacao`. */
  datatype Tiers = Tiers(maior: int, segunda: Option<int>, menor: int)

  function TiersOf(pontuacoes: seq<int>): Tiers
    requires |pontuacoes| > 0
  {
    var maior := pontuacoes[0];
    Tiers(maior, OrNull(FindBelow(pontuacoes, maior)), pontuacoes[|pontuacoes| - 1])
  }

  function TiersFor(ps: seq<ScoredParticipation>): Tiers
    requires HasPositive(ps)
  {
    PontuacoesMembers(ps);
    TiersOf(Pontuacoes(ps))
  }

  /** The second tier is paid when its score exists and is below the first. */
  predicate PaysSegunda(t: Tiers) {
    t.segunda.Some? && t.segunda.value < t.maior
  }

  /** The lowest tier is paid when it is below the second tier's score, or
      below the first's when there is no second. */
  predicate PaysMenor(t: Tiers) {
    t.menor < (if t.segunda.Some? then t.segunda.value else t.maior)
  }

  function Paid(t: Tiers, tier: Tier): bool {
    match tier
    case Maior => true
    case Segunda => PaysSegunda(t)
    case Menor => PaysMenor(t)
  }

  function TierScore(t: Tiers, tier: Tier): int {
    match tier
    case Maior => t.maior
    case Segunda => if t.segunda.Some? then t.segunda.value else 0
    case Menor => t.menor
  }

  function PctOf(config: RateioConfig, tier: Tier): real {
    match tier
    case Maior => config.maior
    case Segunda => config.segunda
    case Menor => config.menor
  }

  /** The position of a tier in `distribuicao`. */
  function TierRank(tier: Tier): nat {
    match tier
    case Maior => 0
    case Segunda => 1
    case Menor => 2
  }

  /** The highest tier is the maximum score, and it is positive. */
  lemma MaiorSpec(ps: seq<ScoredParticipation>)
    requires HasPositive(ps)
    ensures TiersFor(ps).maior > 0 && ScoredBy(ps, TiersFor(ps).maior)
    ensures forall i :: 0 <= i < |ps| ==> ps[i].currentScore <= TiersFor(ps).maior
  {
    var t, pont := TiersFor(ps), Pontuacoes(ps);
    PontuacoesMembers(ps);
    assert pont[0] in pont;
    forall i | 0 <= i < |ps| && ps[i].currentScore > 0 ensures ps[i].currentScore <= t.maior {
      assert ps[i].currentScore in pont;
      var k :| 0 <= k < |pont| && pont[k] == ps[i].currentScore;
      assert k == 0 || pont[0] >= pont[k];
    }
  }

  /** The lowest tier is the minimum positive score. */
  lemma MenorSpec(ps: seq<ScoredParticipation>)
    requires HasPositive(ps)
    ensures TiersFor(ps).menor > 0 && ScoredBy(ps, TiersFor(ps).menor)
    ensures forall i :: 0 <= i < |ps| && ps[i].currentScore > 0 ==> TiersFor(ps).menor <= ps[i].currentScore
  {
    var t, pont := TiersFor(ps), Pontuacoes(ps);
    PontuacoesMembers(ps);
    assert pont[|pont| - 1] in pont;
    forall i | 0 <= i < |ps| && ps[i].currentScore > 0 ensures t.menor <= ps[i].currentScore {
      assert ps[i].currentScore in pont;
      var k :| 0 <= k < |pont| && pont[k] == ps[i].currentScore;
      assert k == |pont| - 1 || pont[k] >= pont[|pont| - 1];
    }
  }

  /** The second tier exists exactly when some positive score is below the
      maximum, and it is then the largest such score. */
  lemma SegundaSpec(ps: seq<ScoredParticipation>)
    requires HasPositive(ps)
    ensures TiersFor(ps).segunda.Some? <==>
              exists i :: 0 <= i < |ps| && 0 < ps[i].currentScore < TiersFor(ps).maior
    ensures TiersFor(ps).segunda.Some? ==>
              var v := TiersFor(ps).segunda.value;
              0 < v < TiersFor(ps).maior && ScoredBy(ps, v) &&
              forall i :: 0 <= i < |ps| && ps[i].currentScore < TiersFor(ps).maior ==> ps[i].currentScore <= v
  {
    var t, pont := TiersFor(ps), Pontuacoes(ps);
    PontuacoesMembers(ps);
    FindBelowSpec(pont, t.maior);
    var found := FindBelow(pont, t.maior);
    if found.Some? {
      assert found.value > 0;
      assert t.segunda == found;
      forall i | 0 <= i < |ps| && ps[i].currentScore < t.maior ensures ps[i].currentScore <= found.value {
        if ps[i].currentScore > 0 {
          assert ps[i].currentScore in pont;
        }
      }
    } else {
      forall i | 0 <= i < |ps| && 0 < ps[i].currentScore ensures ps[i].currentScore >= t.maior {
        assert ps[i].currentScore in pont;
      }
    }
    if exists i :: 0 <= i < |ps| && 0 < ps[i].currentScore < t.maior {
      var i :| 0 <= i < |ps| && 0 < ps[i].currentScore < t.maior;
      assert ps[i].currentScore in pont;
    }
  }

  /** The paid tiers have strictly decreasing scores, so no participation
      is paid in two tiers; the lowest tier is paid only when the second
      is, that is when there are three distinct positive scores. */
  lemma PaidTiersDecreasing(ps: seq<ScoredParticipation>)
    requires HasPositive(ps)
    ensures PaysSegunda(TiersFor(ps)) <==> TiersFor(ps).segunda.Some?
    ensures PaysMenor(TiersFor(ps)) ==> PaysSegunda(TiersFor(ps))
    ensures PaysSegunda(TiersFor(ps)) ==> TiersFor(ps).segunda.value < TiersFor(ps).maior
    ensures PaysMenor(TiersFor(ps)) ==> TiersFor(ps).menor < TiersFor(ps).segunda.value
    ensures forall a, b :: Paid(TiersFor(ps), a) && Paid(TiersFor(ps), b) && TierRank(a) < TierRank(b) ==>
              TierScore(TiersFor(ps), a) > TierScore(TiersFor(ps), b)
  {
    var t := TiersFor(ps);
    MaiorSpec(ps);
    MenorSpec(ps);
    SegundaSpec(ps);
    if t.segunda.None? {
      var i :| 0 <= i < |ps| && ps[i].currentScore == t.menor;
      assert t.menor == t.maior;
    }
  }

  /** Some three participations have distinct positive scores. */
  predicate ThreeScores(ps: seq<ScoredParticipation>) {
    exists i, j, k :: 0 <= i < |ps| && 0 <= j < |ps| && 0 <= k < |ps| &&
      0 < ps[i].currentScore < ps[j].currentScore < ps[k].currentScore
  }

  lemma ThreeScoresOfMenor(ps: seq<ScoredParticipation>)
    requires HasPositive(ps) && PaysMenor(TiersFor(ps))
    ensures ThreeScores(ps)
  {
    var t := TiersFor(ps);
    PaidTiersDecreasing(ps);
    assert t.menor > 0 && ScoredBy(ps, t.menor) by { MenorSpec(ps); }
    assert ScoredBy(ps, t.segunda.value) by { SegundaSpec(ps); }
    assert ScoredBy(ps, t.maior) by { MaiorSpec(ps); }
    var i :| 0 <= i < |ps| && ps[i].currentScore == t.menor;
    var j :| 0 <= j < |ps| && ps[j].currentScore == t.segunda.value;
    var k :| 0 <= k < |ps| && ps[k].currentScore == t.maior;
    assert 0 < ps[i].currentScore < ps[j].currentScore < ps[k].currentScore;
  }

  lemma MenorOfThreeScores(ps: seq<ScoredParticipation>)
    requires HasPositive(ps) && ThreeScores(ps)
    ensures PaysMenor(TiersFor(ps))
  {
    var i, j, k :| 0 <= i < |ps| && 0 <= j < |ps| && 0 <= k < |ps| &&
       0 < ps[i].currentScore < ps[j].currentScore < ps[k].currentScore;
    ScoresAgainstTiers(ps, i, j, k);
  }

  /** Three distinct positive scores, placed against the tiers. */
  lemma ScoresAgainstTiers(ps: seq<ScoredParticipation>, i: int, j: int, k: int)
    requires HasPositive(ps)
    requires 0 <= i < |ps| && 0 <= j < |ps| && 0 <= k < |ps|
    requires 0 < ps[i].currentScore < ps[j].currentScore < ps[k].currentScore
    ensures PaysMenor(TiersFor(ps))
  {
    var t := TiersFor(ps);
    var a, b, c := ps[i].currentScore, ps[j].currentScore, ps[k].currentScore;
    assert c <= t.maior by { MaiorSpec(ps); }
    assert t.segunda.Some? && b <= t.segunda.value by { SegundaSpec(ps); }
    assert t.menor <= a by { MenorSpec(ps); }
    MenorBelow(t, a, b);
  }

  lemma MenorBelow(t: Tiers, a: int, b: int)
    requires a < b && t.menor <= a && t.segunda.Some? && b <= t.segunda.value
    ensures PaysMenor(t)
  {
  }

  /** Three tiers are paid exactly when three distinct positive scores occur. */
  lemma MenorNeedsThreeScores(ps: seq<ScoredParticipation>)
    requires HasPositive(ps)
    ensures PaysMenor(TiersFor(ps)) <==> ThreeScores(ps)
  {
    if PaysMenor(TiersFor(ps)) {
      ThreeScoresOfMenor(ps);
    }
    if ThreeScores(ps) {
      MenorOfThreeScores(ps);
    }
  }

  // ---------------------------------------------------------------------
  // The split
  // ---------------------------------------------------------------------

  function HasScore(score: int): ScoredParticipation -> bool {
    (p: ScoredParticipation) => p.currentScore == score
  }

  /** How many participations have score `score`. */
  function CountScore(ps: seq<ScoredParticipation>, score: int): nat {
    |Filter(ps, HasScore(score))|
  }

  /** `p.user?.name || 'N/A'`. */
  function UserNameOf(p: ScoredParticipation): string {
    if p.userName.None? || p.userName.value == "" then "N/A" else p.userName.value
  }

  function WinnerOf(p: ScoredParticipation, tier: Tier, prize: real): Winner {
    Winner(p.userId, UserNameOf(p), p.id, p.ticketCode, p.currentScore, tier, prize)
  }

  /** One `ganhadores` record per participation of `g`, in order. */
  function Winners(g: seq<ScoredParticipation>, tier: Tier, prize: real): (r: seq<Winner>)
    ensures |r| == |g|
    ensures forall i :: 0 <= i < |g| ==> r[i] == WinnerOf(g[i], tier, prize)
  {
    if g == [] then [] else Winners(g[..|g| - 1], tier, prize) + [WinnerOf(g[|g| - 1], tier, prize)]
  }

  /** The administrative fee: `total * taxa / 100`. */
  function Fee(totalRevenue: real, taxa: real): real {
    totalRevenue * taxa / 100.0
  }

  /** `valorPremiacao`: what is left for the prizes after the fee. */
  function Pool(totalRevenue: real, taxa: real): real {
    totalRevenue - Fee(totalRevenue, taxa)
  }

  /** A tier's share: `valorPremiacao * pct / 100`. */
  function TierTotal(valorPremiacao: real, pct: real): real {
    valorPremiacao * pct / 100.0
  }

  /** The share of each of a tier's winners. */
  function TierPrize(ps: seq<ScoredParticipation>, valorPremiacao: real, score: int, pct: real): real {
    var n := CountScore(ps, score);
    if n > 0 then TierTotal(valorPremiacao, pct) / n as real else 0.0
  }

  /** The `distribuicao` record a tier pushes: none without winners. */
  function TierItem(ps: seq<ScoredParticipation>, valorPremiacao: real, tier: Tier, score: int,
                    pct: real): seq<Distribution>
  {
    var n := CountScore(ps, score);
    if n > 0 then [Distribution(tier, score, n, TierPrize(ps, valorPremiacao, score, pct),
                                TierTotal(valorPremiacao, pct), pct)]
    else []
  }

  /** The `ganhadores` records a tier pushes. */
  function TierWinners(ps: seq<ScoredParticipation>, valorPremiacao: real, tier: Tier, score: int,
                       pct: real): seq<Winner>
  {
    Winners(Filter(ps, HasScore(score)), tier, TierPrize(ps, valorPremiacao, score, pct))
  }

  function ItemIf(ps: seq<ScoredParticipation>, valorPremiacao: real, config: RateioConfig, t: Tiers,
                  tier: Tier): seq<Distribution>
  {
    if Paid(t, tier) then TierItem(ps, valorPremiacao, tier, TierScore(t, tier), PctOf(config, tier)) else []
  }

  function WinnersIf(ps: seq<ScoredParticipation>, valorPremiacao: real, config: RateioConfig, t: Tiers,
                     tier: Tier): seq<Winner>
  {
    if Paid(t, tier) then TierWinners(ps, valorPremiacao, tier, TierScore(t, tier), PctOf(config, tier)) else []
  }

  function Distribuicao(ps: seq<ScoredParticipation>, valorPremiacao: real, config: RateioConfig,
                        t: Tiers): seq<Distribution>
  {
    ItemIf(ps, valorPremiacao, config, t, Maior) + ItemIf(ps, valorPremiacao, config, t, Segunda)
      + ItemIf(ps, valorPremiacao, config, t, Menor)
  }

  /** `ganhadores` before the final sort, tier after tier. */
  function Ganhadores(ps: seq<ScoredParticipation>, valorPremiacao: real, config: RateioConfig,
                      t: Tiers): seq<Winner>
  {
    WinnersIf(ps, valorPremiacao, config, t, Maior) + WinnersIf(ps, valorPremiacao, config, t, Segunda)
      + WinnersIf(ps, valorPremiacao, config, t, Menor)
  }

  /** The comparator `(a, b) => b.pontuacao - a.pontuacao`. */
  function WinnerKey(w: Winner): Key {
    (-w.pontuacao, 0)
  }

  /** Reference definition of `calculateRateio`. The percentages are
      checked first: a sum off 100 by more than 0.01 fails, carrying the
      sum, and nothing is computed. */
  function Rateio(ps: seq<ScoredParticipation>, totalRevenue: real, config: RateioConfig)
    : (r: Result<RateioResult, RateioError>)
    ensures r.Failure? <==> Abs(TotalPercent(config) - 100.0) > 0.01
    ensures r.Failure? ==> r.error == PercentSumNot100(TotalPercent(config))
  {
    if !PercentsValid(config) then Failure(PercentSumNot100(TotalPercent(config)))
    else
      Success(Payout(ps, totalRevenue, config, Fee(totalRevenue, config.taxa), Pool(totalRevenue, config.taxa)))
  }

  /** The result for the fee `taxaAdministrativa` and the prize pool
      `valorPremiacao` left after it. */
  function Payout(ps: seq<ScoredParticipation>, totalRevenue: real, config: RateioConfig,
                  taxaAdministrativa: real, valorPremiacao: real): RateioResult
  {
    var pontuacoes := Pontuacoes(ps);
    if |pontuacoes| == 0 then RateioResult(totalRevenue, taxaAdministrativa, 0.0, [], [])
    else
      var t := TiersOf(pontuacoes);
      RateioResult(totalRevenue, taxaAdministrativa, valorPremiacao,
                   Distribuicao(ps, valorPremiacao, config, t),
                   SortBy(Ganhadores(ps, valorPremiacao, config, t), WinnerKey))
  }

  /** The result when no score is positive. */
  lemma RateioUnpaid(ps: seq<ScoredParticipation>, totalRevenue: real, config: RateioConfig)
    requires PercentsValid(config) && |Pontuacoes(ps)| == 0
    ensures Rateio(ps, totalRevenue, config)
         == Success(RateioResult(totalRevenue, Fee(totalRevenue, config.taxa), 0.0, [], []))
  {
  }

  /** The result when some score is positive, given the fee and the prize
      pool. */
  lemma RateioPaid(ps: seq<ScoredParticipation>, totalRevenue: real, config: RateioConfig,
                   taxaAdministrativa: real, valorPremiacao: real)
    requires PercentsValid(config) && |Pontuacoes(ps)| > 0
    requires taxaAdministrativa == Fee(totalRevenue, config.taxa) && valorPremiacao == Pool(totalRevenue, config.taxa)
    ensures Rateio(ps, totalRevenue, config)
         == Success(RateioResult(totalRevenue, taxaAdministrativa, valorPremiacao,
                                 Distribuicao(ps, valorPremiacao, config, TiersOf(Pontuacoes(ps))),
                                 SortBy(Ganhadores(ps, valorPremiacao, config, TiersOf(Pontuacoes(ps))), WinnerKey)))
  {
    RateioUnfold(ps, totalRevenue, config);
    PayoutArgs(ps, totalRevenue, config, Fee(totalRevenue, config.taxa), Pool(totalRevenue, config.taxa),
               taxaAdministrativa, valorPremiacao);
    PayoutPaid(ps, totalRevenue, config, taxaAdministrativa, valorPremiacao);
  }

  lemma RateioUnfold(ps: seq<ScoredParticipation>, totalRevenue: real, config: RateioConfig)
    requires PercentsValid(config)
    ensures Rateio(ps, totalRevenue, config)
         == Success(Payout(ps, totalRevenue, config, Fee(totalRevenue, config.taxa), Pool(totalRevenue, config.taxa)))
  {
  }

  lemma PayoutArgs(ps: seq<ScoredParticipation>, totalRevenue: real, config: RateioConfig,
                   taxa1: real, premio1: real, taxa2: real, premio2: real)
    requires taxa1 == taxa2 && premio1 == premio2
    ensures Payout(ps, totalRevenue, config, taxa1, premio1) == Payout(ps, totalRevenue, config, taxa2, premio2)
  {
  }

  lemma PayoutPaid(ps: seq<ScoredParticipation>, totalRevenue: real, config: RateioConfig, taxaAdministrativa: real,
                   valorPremiacao: real)
    requires |Pontuacoes(ps)| > 0
    ensures Payout(ps, totalRevenue, config, taxaAdministrativa, valorPremiacao)
         == RateioResult(totalRevenue, taxaAdministrativa, valorPremiacao,
                         Distribuicao(ps, valorPremiacao, config, TiersOf(Pontuacoes(ps))),
                         SortBy(Ganhadores(ps, valorPremiacao, config, TiersOf(Pontuacoes(ps))), WinnerKey))
  {
  }

  /** `ganhadoresX.forEach(p => ganhadores.push({...}))`. */
  method PushWinners(ganhadores: seq<Winner>, g: seq<ScoredParticipation>, tier: Tier, prize: real)
    returns (r: seq<Winner>)
    ensures r == ganhadores + Winners(g, tier, prize)
  {
    r := ganhadores;
    var k := 0;
    while k < |g|
      invariant 0 <= k <= |g|
      invariant r == ganhadores + Winners(g[..k], tier, prize)
    {
      assert g[..k + 1][..k] == g[..k];
      r := r + [WinnerOf(g[k], tier, prize)];
      k := k + 1;
    }
    assert g[..k] == g;
  }

  /** One tier's block: filter its winners and, when there are any, push
      its `distribuicao` record and its `ganhadores` records. */
  method PayTier(distribuicao: seq<Distribution>, ganhadores: seq<Winner>, ps: seq<ScoredParticipation>,
                 valorPremiacao: real, tier: Tier, score: int, pct: real)
    returns (distribuicao': seq<Distribution>, ganhadores': seq<Winner>)
    ensures distribuicao' == distribuicao + TierItem(ps, valorPremiacao, tier, score, pct)
    ensures ganhadores' == ganhadores + TierWinners(ps, valorPremiacao, tier, score, pct)
  {
    distribuicao', ganhadores' := distribuicao, ganhadores;
    var tierWinners := Filter(ps, HasScore(score));
    if |tierWinners| > 0 {
      var valorTotal := TierTotal(valorPremiacao, pct);
      var valorPorGanhador := valorTotal / |tierWinners| as real;
      distribuicao' := distribuicao' + [Distribution(tier, score, |tierWinners|, valorPorGanhador, valorTotal, pct)];
      ganhadores' := PushWinners(ganhadores', tierWinners, tier, valorPorGanhador);
    }
  }

  /** The block of the second tier, run only when the second score exists
      and is below the highest. */
  method PaySegunda(distribuicao: seq<Distribution>, ganhadores: seq<Winner>, ps: seq<ScoredParticipation>,
                    valorPremiacao: real, config: RateioConfig, maior: int, segunda: Option<int>, menor: int)
    returns (distribuicao': seq<Distribution>, ganhadores': seq<Winner>)
    ensures distribuicao' == distribuicao + ItemIf(ps, valorPremiacao, config, Tiers(maior, segunda, menor), Segunda)
    ensures ganhadores' == ganhadores + WinnersIf(ps, valorPremiacao, config, Tiers(maior, segunda, menor), Segunda)
  {
    distribuicao', ganhadores' := distribuicao, ganhadores;
    if segunda.Some? && segunda.value < maior {
      distribuicao', ganhadores' := PayTier(distribuicao, ganhadores, ps, valorPremiacao, Segunda,
                                            segunda.value, config.segunda);
    }
  }

  /** The block of the lowest tier, run only when the lowest score is below
      the second (or below the highest without a second). */
  method PayMenor(distribuicao: seq<Distribution>, ganhadores: seq<Winner>, ps: seq<ScoredParticipation>,
                  valorPremiacao: real, config: RateioConfig, maior: int, segunda: Option<int>, menor: int)
    returns (distribuicao': seq<Distribution>, ganhadores': seq<Winner>)
    ensures distribuicao' == distribuicao + ItemIf(ps, valorPremiacao, config, Tiers(maior, segunda, menor), Menor)
    ensures ganhadores' == ganhadores + WinnersIf(ps, valorPremiacao, config, Tiers(maior, segunda, menor), Menor)
  {
    distribuicao', ganhadores' := distribuicao, ganhadores;
    if menor < (if segunda.Some? then segunda.value else maior) {
      distribuicao', ganhadores' := PayTier(distribuicao, ganhadores, ps, valorPremiacao, Menor, menor, config.menor);
    }
  }

  /** The three tier blocks of `calculateRateio`, in order. */
  method Distribute(ps: seq<ScoredParticipation>, valorPremiacao: real, config: RateioConfig,
                    maior: int, segunda: Option<int>, menor: int)
    returns (distribuicao: seq<Distribution>, ganhadores: seq<Winner>)
    ensures distribuicao == Distribuicao(ps, valorPremiacao, config, Tiers(maior, segunda, menor))
    ensures ganhadores == Ganhadores(ps, valorPremiacao, config, Tiers(maior, segunda, menor))
  {
    distribuicao, ganhadores := PayTier([], [], ps, valorPremiacao, Maior, maior, config.maior);
    assert distribuicao == ItemIf(ps, valorPremiacao, config, Tiers(maior, segunda, menor), Maior);
    assert ganhadores == WinnersIf(ps, valorPremiacao, config, Tiers(maior, segunda, menor), Maior);
    distribuicao, ganhadores := PaySegunda(distribuicao, ganhadores, ps, valorPremiacao, config, maior, segunda, menor);
    distribuicao, ganhadores := PayMenor(distribuicao, ganhadores, ps, valorPremiacao, config, maior, segunda, menor);
  }

  /** `calculateRateio`, the tiers pushed one after the other and the
      winners sorted by score at the end. */
  method CalculateRateio(ps: seq<ScoredParticipation>, totalRevenue: real, config: RateioConfig)
    returns (r: Result<RateioResult, RateioError>)
    ensures r == Rateio(ps, totalRevenue, config)
  {
    var totalPercent := config.maior + config.segunda + config.menor + config.taxa;
    if Abs(totalPercent - 100.0) > 0.01 {
      return Failure(PercentSumNot100(totalPercent));
    }
    var taxaAdministrativa := Fee(totalRevenue, config.taxa);
    var valorPremiacao := totalRevenue - taxaAdministrativa;
    var pontuacoes := Pontuacoes(ps);
    if |pontuacoes| == 0 {
      RateioUnpaid(ps, totalRevenue, config);
      return Success(RateioResult(totalRevenue, taxaAdministrativa, 0.0, [], []));
    }
    var maior := pontuacoes[0];
    var segunda := OrNull(FindBelow(pontuacoes, maior));
    var menor := pontuacoes[|pontuacoes| - 1];
    var distribuicao, ganhadores := Distribute(ps, valorPremiacao, config, maior, segunda, menor);
    ghost var t := Tiers(maior, segunda, menor);
    assert t == TiersOf(pontuacoes);
    RateioPaid(ps, totalRevenue, config, taxaAdministrativa, valorPremiacao);
    r := Success(RateioResult(totalRevenue, taxaAdministrativa, valorPremiacao, distribuicao,
                              SortBy(ganhadores, WinnerKey)));
  }

  // ---------------------------------------------------------------------
  // What the split promises
  // ---------------------------------------------------------------------

  /** The fee is `total * taxa / 100` and is reported whatever the scores. */
  lemma RateioFee(ps: seq<ScoredParticipation>, totalRevenue: real, config: RateioConfig)
    requires PercentsValid(config)
    ensures Rateio(ps, totalRevenue, config).Success?
    ensures Rateio(ps, totalRevenue, config).value.totalArrecadado == totalRevenue
    ensures Rateio(ps, totalRevenue, config).value.taxaAdministrativa == Fee(totalRevenue, config.taxa)
  {
    if |Pontuacoes(ps)| == 0 {
    } else {
    }
  }

  /** With a positive score, the fee and the prize pool make up the total
      and at least the highest tier is distributed. */
  lemma RateioPool(ps: seq<ScoredParticipation>, totalRevenue: real, config: RateioConfig)
    requires PercentsValid(config) && HasPositive(ps)
    ensures Rateio(ps, totalRevenue, config).Success?
    ensures var r := Rateio(ps, totalRevenue, config).value;
            r.taxaAdministrativa + r.valorPremiacao == totalRevenue && r.distribuicao != []
  {
    PontuacoesMembers(ps);
    var r := Rateio(ps, totalRevenue, config).value;
    PaidScored(ps, Maior);
    TierItemFacts(ps, r.valorPremiacao, Maior, TiersFor(ps).maior, config.maior);
  }

  /** With no positive score nothing is distributed and the pool is
      reported as 0. */
  lemma RateioNoScores(ps: seq<ScoredParticipation>, totalRevenue: real, config: RateioConfig)
    requires PercentsValid(config) && !HasPositive(ps)
    ensures Rateio(ps, totalRevenue, config).Success?
    ensures var r := Rateio(ps, totalRevenue, config).value;
            r.valorPremiacao == 0.0 && r.distribuicao == [] && r.ganhadores == []
  {
    PontuacoesMembers(ps);
  }

  /** A paid tier's score is a positive score some participation has. */
  lemma PaidScored(ps: seq<ScoredParticipation>, tier: Tier)
    requires HasPositive(ps) && Paid(TiersFor(ps), tier)
    ensures TierScore(TiersFor(ps), tier) > 0 && ScoredBy(ps, TierScore(TiersFor(ps), tier))
  {
    match tier
    case Maior => MaiorSpec(ps);
    case Segunda => SegundaSpec(ps);
    case Menor => MenorSpec(ps);
  }

  lemma CountScorePositive(ps: seq<ScoredParticipation>, score: int)
    requires ScoredBy(ps, score)
    ensures CountScore(ps, score) > 0
  {
    var i :| 0 <= i < |ps| && ps[i].currentScore == score;
    FilterMembership(ps, HasScore(score));
    assert ps[i] in Filter(ps, HasScore(score));
  }

  /** A tier with winners pushes one record whose per-winner share times
      the number of winners is the tier's total. */
  lemma TierItemFacts(ps: seq<ScoredParticipation>, valorPremiacao: real, tier: Tier, score: int, pct: real)
    requires ScoredBy(ps, score)
    ensures CountScore(ps, score) > 0
    ensures TierItem(ps, valorPremiacao, tier, score, pct)
         == [Distribution(tier, score, CountScore(ps, score), TierPrize(ps, valorPremiacao, score, pct),
                          TierTotal(valorPremiacao, pct), pct)]
    ensures TierPrize(ps, valorPremiacao, score, pct) * CountScore(ps, score) as real == TierTotal(valorPremiacao, pct)
  {
    CountScorePositive(ps, score);
    DivTimes(TierTotal(valorPremiacao, pct), CountScore(ps, score));
  }

  lemma DivTimes(x: real, n: nat)
    requires n > 0
    ensures (x / n as real) * n as real == x
  {
  }

  /** A tier's winner records: one per participation with the tier's score,
      each carrying that score, the tier and the per-winner share. */
  lemma TierWinnersFields(ps: seq<ScoredParticipation>, valorPremiacao: real, tier: Tier, score: int, pct: real)
    ensures |TierWinners(ps, valorPremiacao, tier, score, pct)| == CountScore(ps, score)
    ensures forall i :: 0 <= i < |TierWinners(ps, valorPremiacao, tier, score, pct)| ==>
              var w := TierWinners(ps, valorPremiacao, tier, score, pct)[i];
              w.pontuacao == score && w.categoria == tier && w.valorPremio == TierPrize(ps, valorPremiacao, score, pct)
  {
    var g := Filter(ps, HasScore(score));
    var tw := Winners(g, tier, TierPrize(ps, valorPremiacao, score, pct));
    FilterMembership(ps, HasScore(score));
    forall i | 0 <= i < |tw| ensures tw[i].pontuacao == score {
      assert HasScore(score)(g[i]);
    }
  }

  lemma TierWinnersFacts(ps: seq<ScoredParticipation>, valorPremiacao: real, tier: Tier, score: int, pct: real)
    ensures |TierWinners(ps, valorPremiacao, tier, score, pct)| == CountScore(ps, score)
    ensures forall i :: 0 <= i < |TierWinners(ps, valorPremiacao, tier, score, pct)| ==>
              var w := TierWinners(ps, valorPremiacao, tier, score, pct)[i];
              w.pontuacao == score && w.categoria == tier && w.valorPremio == TierPrize(ps, valorPremiacao, score, pct)
    ensures forall p :: p in ps && p.currentScore == score ==>
              WinnerOf(p, tier, TierPrize(ps, valorPremiacao, score, pct)) in TierWinners(ps, valorPremiacao, tier, score, pct)
    ensures forall i :: 0 <= i < |TierWinners(ps, valorPremiacao, tier, score, pct)| ==>
              exists p :: p in ps && p.currentScore == score &&
                TierWinners(ps, valorPremiacao, tier, score, pct)[i] == WinnerOf(p, tier, TierPrize(ps, valorPremiacao, score, pct))
  {
    var g := Filter(ps, HasScore(score));
    var prize := TierPrize(ps, valorPremiacao, score, pct);
    var tw := Winners(g, tier, prize);
    TierWinnersFields(ps, valorPremiacao, tier, score, pct);
    FilterMembership(ps, HasScore(score));
    forall p | p in ps && p.currentScore == score ensures WinnerOf(p, tier, prize) in tw {
      assert p in g;
      var k :| 0 <= k < |g| && g[k] == p;
      assert tw[k] == WinnerOf(p, tier, prize);
    }
    forall i | 0 <= i < |tw| ensures exists p :: p in ps && p.currentScore == score && tw[i] == WinnerOf(p, tier, prize) {
      assert g[i] in g;
      assert HasScore(score)(g[i]);
    }
  }

  /** The winner records of a paid tier, or none. */
  lemma WinnersIfFacts(ps: seq<ScoredParticipation>, valorPremiacao: real, config: RateioConfig, t: Tiers, tier: Tier)
    ensures forall i :: 0 <= i < |WinnersIf(ps, valorPremiacao, config, t, tier)| ==>
              Paid(t, tier) && WinnersIf(ps, valorPremiacao, config, t, tier)[i].pontuacao == TierScore(t, tier)
  {
    if Paid(t, tier) {
      var score, pct := TierScore(t, tier), PctOf(config, tier);
      TierWinnersFields(ps, valorPremiacao, tier, score, pct);
      var ws := TierWinners(ps, valorPremiacao, tier, score, pct);
      assert WinnersIf(ps, valorPremiacao, config, t, tier) == ws;
      forall i | 0 <= i < |ws| ensures ws[i].pontuacao == score {
        var w := ws[i];
      }
    } else {
      assert WinnersIf(ps, valorPremiacao, config, t, tier) == [];
    }
  }

  lemma SameScoreSorted(ws: seq<Winner>, score: int)
    requires forall i :: 0 <= i < |ws| ==> ws[i].pontuacao == score
    ensures SortedBy(ws, WinnerKey)
  {
  }

  /** The records are pushed tier after tier with decreasing scores, so
      they are already in the order of the final sort. */
  lemma GanhadoresSorted(ps: seq<ScoredParticipation>, valorPremiacao: real, config: RateioConfig, t: Tiers)
    requires forall a, b :: Paid(t, a) && Paid(t, b) && TierRank(a) < TierRank(b) ==> TierScore(t, a) > TierScore(t, b)
    ensures SortedBy(Ganhadores(ps, valorPremiacao, config, t), WinnerKey)
  {
    var a := WinnersIf(ps, valorPremiacao, config, t, Maior);
    var b := WinnersIf(ps, valorPremiacao, config, t, Segunda);
    var c := WinnersIf(ps, valorPremiacao, config, t, Menor);
    WinnersIfFacts(ps, valorPremiacao, config, t, Maior);
    WinnersIfFacts(ps, valorPremiacao, config, t, Segunda);
    WinnersIfFacts(ps, valorPremiacao, config, t, Menor);
    assert a != [] ==> Paid(t, Maior);
    assert b != [] ==> Paid(t, Segunda);
    assert c != [] ==> Paid(t, Menor);
    ScoreBlocksSorted(a, b, c, TierScore(t, Maior), TierScore(t, Segunda), TierScore(t, Menor));
  }

  /** Three blocks of records, each of one score, with the scores
      decreasing from block to block. */
  lemma ScoreBlocksSorted(a: seq<Winner>, b: seq<Winner>, c: seq<Winner>, sa: int, sb: int, sc: int)
    requires forall i :: 0 <= i < |a| ==> a[i].pontuacao == sa
    requires forall i :: 0 <= i < |b| ==> b[i].pontuacao == sb
    requires forall i :: 0 <= i < |c| ==> c[i].pontuacao == sc
    requires a != [] && b != [] ==> sa > sb
    requires a != [] && c != [] ==> sa > sc
    requires b != [] && c != [] ==> sb > sc
    ensures SortedBy(a + b + c, WinnerKey)
  {
    SameScoreSorted(a, sa);
    SameScoreSorted(b, sb);
    SameScoreSorted(c, sc);
    SortedConcat(a, b, WinnerKey);
    var ab := a + b;
    forall i, j | 0 <= i < |ab| && 0 <= j < |c| ensures KeyLe(WinnerKey(ab[i]), WinnerKey(c[j])) {
      if i < |a| {
        assert ab[i] == a[i];
      } else {
        assert ab[i] == b[i - |a|];
      }
    }
    SortedConcat(ab, c, WinnerKey);
  }

  /** With a positive score, the result is the tiers' records, and the
      final sort of `ganhadores` changes nothing. */
  lemma RateioShape(ps: seq<ScoredParticipation>, totalRevenue: real, config: RateioConfig)
    requires PercentsValid(config) && HasPositive(ps)
    ensures Rateio(ps, totalRevenue, config).Success?
    ensures var r := Rateio(ps, totalRevenue, config).value;
            r.valorPremiacao == totalRevenue - Fee(totalRevenue, config.taxa) &&
            r.distribuicao == Distribuicao(ps, r.valorPremiacao, config, TiersFor(ps)) &&
            r.ganhadores == Ganhadores(ps, r.valorPremiacao, config, TiersFor(ps))
  {
    PontuacoesMembers(ps);
    var taxa := Fee(totalRevenue, config.taxa);
    var premio := totalRevenue - taxa;
    var t := TiersFor(ps);
    assert t == TiersOf(Pontuacoes(ps));
    var g := Ganhadores(ps, premio, config, t);
    RateioPaid(ps, totalRevenue, config, taxa, premio);
    PaidTiersDecreasing(ps);
    GanhadoresSorted(ps, premio, config, t);
    SortBySortedInput(g, WinnerKey);
  }

  /** `ganhadores` is ordered by score, highest first. */
  lemma RateioWinnersSorted(ps: seq<ScoredParticipation>, totalRevenue: real, config: RateioConfig)
    requires PercentsValid(config)
    ensures Rateio(ps, totalRevenue, config).Success?
    ensures var ws := Rateio(ps, totalRevenue, config).value.ganhadores;
            forall i, j :: 0 <= i < j < |ws| ==> ws[i].pontuacao >= ws[j].pontuacao
  {
    if HasPositive(ps) {
      RateioShape(ps, totalRevenue, config);
      var r := Rateio(ps, totalRevenue, config).value;
      PaidTiersDecreasing(ps);
      GanhadoresSorted(ps, r.valorPremiacao, config, TiersFor(ps));
      SortedByScore(r.ganhadores);
    } else {
      RateioNoScores(ps, totalRevenue, config);
    }
  }

  lemma SortedByScore(ws: seq<Winner>)
    requires SortedBy(ws, WinnerKey)
    ensures forall i, j :: 0 <= i < j < |ws| ==> ws[i].pontuacao >= ws[j].pontuacao
  {
    assert forall i, j :: 0 <= i < j < |ws| ==> KeyLe(WinnerKey(ws[i]), WinnerKey(ws[j]));
  }

  /** The `distribuicao` record of a paid tier. */
  function TierRecord(ps: seq<ScoredParticipation>, valorPremiacao: real, config: RateioConfig, t: Tiers,
                      tier: Tier): Distribution
  {
    var score := TierScore(t, tier);
    Distribution(tier, score, CountScore(ps, score), TierPrize(ps, valorPremiacao, score, PctOf(config, tier)),
                 TierTotal(valorPremiacao, PctOf(config, tier)), PctOf(config, tier))
  }

  lemma ItemIfFacts(ps: seq<ScoredParticipation>, valorPremiacao: real, config: RateioConfig, tier: Tier)
    requires HasPositive(ps)
    ensures var t := TiersFor(ps);
            ItemIf(ps, valorPremiacao, config, t, tier)
            == if Paid(t, tier) then [TierRecord(ps, valorPremiacao, config, t, tier)] else []
  {
    var t := TiersFor(ps);
    if Paid(t, tier) {
      PaidScored(ps, tier);
      TierItemFacts(ps, valorPremiacao, tier, TierScore(t, tier), PctOf(config, tier));
    }
  }

  /** `distribuicao` holds one record per paid tier, Maior first. */
  lemma DistribuicaoShape(ps: seq<ScoredParticipation>, valorPremiacao: real, config: RateioConfig)
    requires HasPositive(ps)
    ensures var t := TiersFor(ps);
            Distribuicao(ps, valorPremiacao, config, t)
            == [TierRecord(ps, valorPremiacao, config, t, Maior)]
               + (if PaysSegunda(t) then [TierRecord(ps, valorPremiacao, config, t, Segunda)] else [])
               + (if PaysMenor(t) then [TierRecord(ps, valorPremiacao, config, t, Menor)] else [])
  {
    ItemIfFacts(ps, valorPremiacao, config, Maior);
    ItemIfFacts(ps, valorPremiacao, config, Segunda);
    ItemIfFacts(ps, valorPremiacao, config, Menor);
  }

  /** What a `distribuicao` record promises: a paid tier, its score and
      percentage, the number of participations with that score (at least
      one), the tier's total `valorPremiacao * pct / 100`, and that total
      shared equally among the winners. */
  predicate PaidRecord(ps: seq<ScoredParticipation>, valorPremiacao: real, config: RateioConfig, t: Tiers,
                       d: Distribution)
  {
    Paid(t, d.categoria) && d.pontuacao == TierScore(t, d.categoria) && d.percentual == PctOf(config, d.categoria) &&
    d.quantidadeGanhadores == CountScore(ps, d.pontuacao) && d.quantidadeGanhadores > 0 &&
    d.valorTotal == TierTotal(valorPremiacao, d.percentual) &&
    d.valorPorGanhador == d.valorTotal / d.quantidadeGanhadores as real
  }

  /** The shares of a record add up to the tier's total. */
  lemma PaidRecordShares(ps: seq<ScoredParticipation>, valorPremiacao: real, config: RateioConfig, t: Tiers,
                         d: Distribution)
    requires PaidRecord(ps, valorPremiacao, config, t, d)
    ensures d.valorPorGanhador * d.quantidadeGanhadores as real == d.valorTotal
  {
    DivTimes(d.valorTotal, d.quantidadeGanhadores);
  }

  lemma TierRecordFacts(ps: seq<ScoredParticipation>, valorPremiacao: real, config: RateioConfig, tier: Tier)
    requires HasPositive(ps) && Paid(TiersFor(ps), tier)
    ensures TierRecord(ps, valorPremiacao, config, TiersFor(ps), tier).categoria == tier
    ensures PaidRecord(ps, valorPremiacao, config, TiersFor(ps), TierRecord(ps, valorPremiacao, config, TiersFor(ps), tier))
  {
    var t := TiersFor(ps);
    PaidScored(ps, tier);
    CountScorePositive(ps, TierScore(t, tier));
  }

  /** The record at position `i` of `distribuicao` is the record of its
      tier, and that tier is paid. */
  lemma DistribuicaoAt(ps: seq<ScoredParticipation>, valorPremiacao: real, config: RateioConfig, i: nat)
    requires HasPositive(ps)
    requires i < |Distribuicao(ps, valorPremiacao, config, TiersFor(ps))|
    ensures var d := Distribuicao(ps, valorPremiacao, config, TiersFor(ps))[i];
            Paid(TiersFor(ps), d.categoria) && d == TierRecord(ps, valorPremiacao, config, TiersFor(ps), d.categoria)
  {
    var t := TiersFor(ps);
    DistribuicaoShape(ps, valorPremiacao, config);
    var a := TierRecord(ps, valorPremiacao, config, t, Maior);
    var b := TierRecord(ps, valorPremiacao, config, t, Segunda);
    var c := TierRecord(ps, valorPremiacao, config, t, Menor);
    var ds := Distribuicao(ps, valorPremiacao, config, t);
    if i == 0 {
      assert ds[0] == a;
    } else if PaysSegunda(t) && i == 1 {
      assert ds[1] == b;
    } else {
      assert ds[i] == c && PaysMenor(t);
    }
  }

  /** Every record of `distribuicao` keeps `PaidRecord`. */
  lemma DistribuicaoRecords(ps: seq<ScoredParticipation>, valorPremiacao: real, config: RateioConfig, i: nat)
    requires HasPositive(ps)
    requires i < |Distribuicao(ps, valorPremiacao, config, TiersFor(ps))|
    ensures PaidRecord(ps, valorPremiacao, config, TiersFor(ps), Distribuicao(ps, valorPremiacao, config, TiersFor(ps))[i])
  {
    DistribuicaoAt(ps, valorPremiacao, config, i);
    TierRecordFacts(ps, valorPremiacao, config, Distribuicao(ps, valorPremiacao, config, TiersFor(ps))[i].categoria);
  }

  /** Every record of the result's `distribuicao` is a paid tier's record. */
  lemma RateioDistribution(ps: seq<ScoredParticipation>, totalRevenue: real, config: RateioConfig, i: nat)
    requires PercentsValid(config) && HasPositive(ps)
    requires i < |Rateio(ps, totalRevenue, config).value.distribuicao|
    ensures PaidRecord(ps, Rateio(ps, totalRevenue, config).value.valorPremiacao, config, TiersFor(ps),
                       Rateio(ps, totalRevenue, config).value.distribuicao[i])
  {
    RateioShape(ps, totalRevenue, config);
    var r := Rateio(ps, totalRevenue, config).value;
    DistribuicaoRecords(ps, r.valorPremiacao, config, i);
  }

  /** `distribuicao` lists exactly the paid tiers, Maior, then Segunda, then
      Menor, with strictly decreasing scores. */
  lemma DistribuicaoTiers(ps: seq<ScoredParticipation>, valorPremiacao: real, config: RateioConfig)
    requires HasPositive(ps)
    ensures var ds := Distribuicao(ps, valorPremiacao, config, TiersFor(ps));
            |ds| > 0 && ds[0].categoria == Maior &&
            (forall tier :: Paid(TiersFor(ps), tier) <==> exists i :: 0 <= i < |ds| && ds[i].categoria == tier) &&
            forall i, j :: 0 <= i < j < |ds| ==>
              TierRank(ds[i].categoria) < TierRank(ds[j].categoria) && ds[i].pontuacao > ds[j].pontuacao
  {
    var t := TiersFor(ps);
    DistribuicaoShape(ps, valorPremiacao, config);
    PaidTiersDecreasing(ps);
    ListedTiers(Distribuicao(ps, valorPremiacao, config, t), t,
                TierRecord(ps, valorPremiacao, config, t, Maior), TierRecord(ps, valorPremiacao, config, t, Segunda),
                TierRecord(ps, valorPremiacao, config, t, Menor));
  }

  /** The paid tiers' records, one per tier in tier order, list every paid
      tier once with strictly decreasing scores. */
  lemma ListedTiers(ds: seq<Distribution>, t: Tiers, a: Distribution, b: Distribution, c: Distribution)
    requires ds == [a] + (if PaysSegunda(t) then [b] else []) + (if PaysMenor(t) then [c] else [])
    requires a.categoria == Maior && b.categoria == Segunda && c.categoria == Menor
    requires a.pontuacao == TierScore(t, Maior) && b.pontuacao == TierScore(t, Segunda) &&
             c.pontuacao == TierScore(t, Menor)
    requires PaysMenor(t) ==> PaysSegunda(t)
    requires forall x, y :: Paid(t, x) && Paid(t, y) && TierRank(x) < TierRank(y) ==> TierScore(t, x) > TierScore(t, y)
    ensures |ds| > 0 && ds[0].categoria == Maior
    ensures forall tier :: Paid(t, tier) <==> exists i :: 0 <= i < |ds| && ds[i].categoria == tier
    ensures forall i, j :: 0 <= i < j < |ds| ==>
              TierRank(ds[i].categoria) < TierRank(ds[j].categoria) && ds[i].pontuacao > ds[j].pontuacao
  {
    forall i | 0 <= i < |ds| ensures Paid(t, ds[i].categoria) && ds[i].pontuacao == TierScore(t, ds[i].categoria) {
      if i == 0 {
        assert ds[0] == a;
      } else if PaysSegunda(t) && i == 1 {
        assert ds[1] == b;
      } else {
        assert ds[i] == c && PaysMenor(t);
      }
    }
    forall tier | Paid(t, tier) ensures exists i :: 0 <= i < |ds| && ds[i].categoria == tier {
      match tier
      case Maior => assert ds[0].categoria == Maior;
      case Segunda => assert ds[1].categoria == Segunda;
      case Menor => assert ds[|ds| - 1].categoria == Menor;
    }
  }

  lemma RateioTiersListed(ps: seq<ScoredParticipation>, totalRevenue: real, config: RateioConfig)
    requires PercentsValid(config) && HasPositive(ps)
    ensures var ds := Rateio(ps, totalRevenue, config).value.distribuicao;
            |ds| > 0 && ds[0].categoria == Maior &&
            (forall tier :: Paid(TiersFor(ps), tier) <==> exists i :: 0 <= i < |ds| && ds[i].categoria == tier) &&
            forall i, j :: 0 <= i < j < |ds| ==>
              TierRank(ds[i].categoria) < TierRank(ds[j].categoria) && ds[i].pontuacao > ds[j].pontuacao
  {
    RateioShape(ps, totalRevenue, config);
    var r := Rateio(ps, totalRevenue, config).value;
    DistribuicaoTiers(ps, r.valorPremiacao, config);
  }

  // ---------------------------------------------------------------------
  // The winners
  // ---------------------------------------------------------------------

  /** A winner record comes from a participation whose score is the score
      of a paid tier, at that tier's per-winner share. */
  predicate WinnerFrom(ps: seq<ScoredParticipation>, valorPremiacao: real, config: RateioConfig, t: Tiers,
                       w: Winner)
  {
    Paid(t, w.categoria) &&
    RecordOfScore(ps, TierScore(t, w.categoria), TierPrize(ps, valorPremiacao, TierScore(t, w.categoria), PctOf(config, w.categoria)), w)
  }

  /** `w` is the record, at share `prize`, of a participation of `ps` with
      score `score`. */
  predicate RecordOfScore(ps: seq<ScoredParticipation>, score: int, prize: real, w: Winner) {
    exists p :: p in ps && p.currentScore == score && w == WinnerOf(p, w.categoria, prize)
  }

  lemma WinnersIfFrom(ps: seq<ScoredParticipation>, valorPremiacao: real, config: RateioConfig, t: Tiers, tier: Tier,
                      k: nat, w: Winner)
    requires k < |WinnersIf(ps, valorPremiacao, config, t, tier)|
    requires w == WinnersIf(ps, valorPremiacao, config, t, tier)[k]
    ensures WinnerFrom(ps, valorPremiacao, config, t, w)
  {
    var score, pct := TierScore(t, tier), PctOf(config, tier);
    var prize := TierPrize(ps, valorPremiacao, score, pct);
    TierWinnersFacts(ps, valorPremiacao, tier, score, pct);
    var p :| p in ps && p.currentScore == score && w == WinnerOf(p, tier, prize);
    assert w.categoria == tier;
    assert RecordOfScore(ps, score, prize, w);
  }

  /** Every winner record keeps `WinnerFrom`, whatever the tiers. */
  lemma GanhadoresFrom(ps: seq<ScoredParticipation>, valorPremiacao: real, config: RateioConfig, t: Tiers, i: nat)
    requires i < |Ganhadores(ps, valorPremiacao, config, t)|
    ensures WinnerFrom(ps, valorPremiacao, config, t, Ganhadores(ps, valorPremiacao, config, t)[i])
  {
    var a := WinnersIf(ps, valorPremiacao, config, t, Maior);
    var b := WinnersIf(ps, valorPremiacao, config, t, Segunda);
    var c := WinnersIf(ps, valorPremiacao, config, t, Menor);
    var g := Ganhadores(ps, valorPremiacao, config, t);
    ConcatAt(a, b, c, i);
    var tier: Tier, k: nat;
    if i < |a| {
      tier, k := Maior, i;
    } else if i < |a| + |b| {
      tier, k := Segunda, i - |a|;
    } else {
      tier, k := Menor, i - |a| - |b|;
    }
    WinnersIfFrom(ps, valorPremiacao, config, t, tier, k, g[i]);
  }

  /** Indexing into three joined sequences. */
  lemma ConcatAt<T>(a: seq<T>, b: seq<T>, c: seq<T>, i: nat)
    requires i < |a| + |b| + |c|
    ensures i < |a| ==> (a + b + c)[i] == a[i]
    ensures |a| <= i < |a| + |b| ==> (a + b + c)[i] == b[i - |a|]
    ensures |a| + |b| <= i ==> (a + b + c)[i] == c[i - |a| - |b|]
  {
  }

  /** Every participation whose score is a paid tier's score has a winner
      record for that tier. */
  lemma GanhadoresComplete(ps: seq<ScoredParticipation>, valorPremiacao: real, config: RateioConfig,
                           p: ScoredParticipation, tier: Tier)
    requires HasPositive(ps) && p in ps
    requires Paid(TiersFor(ps), tier) && p.currentScore == TierScore(TiersFor(ps), tier)
    ensures var t := TiersFor(ps);
            WinnerOf(p, tier, TierPrize(ps, valorPremiacao, p.currentScore, PctOf(config, tier)))
              in Ganhadores(ps, valorPremiacao, config, t)
  {
    var t := TiersFor(ps);
    TierWinnersFacts(ps, valorPremiacao, tier, TierScore(t, tier), PctOf(config, tier));
  }

  /** A participation whose score is no paid tier's score has no record. */
  lemma GanhadoresOnlyPaid(ps: seq<ScoredParticipation>, valorPremiacao: real, config: RateioConfig,
                           p: ScoredParticipation, i: nat)
    requires HasPositive(ps)
    requires i < |Ganhadores(ps, valorPremiacao, config, TiersFor(ps))|
    requires Ganhadores(ps, valorPremiacao, config, TiersFor(ps))[i].participationId == p.id
    requires forall q :: q in ps && q.id == p.id ==> q == p
    ensures exists tier :: Paid(TiersFor(ps), tier) && p.currentScore == TierScore(TiersFor(ps), tier)
  {
    GanhadoresFrom(ps, valorPremiacao, config, TiersFor(ps), i);
  }

  /** Scores of distinct tiers differ, so a score decides the tier: no two
      records with one score have different tiers. */
  lemma GanhadoresTierByScore(ps: seq<ScoredParticipation>, valorPremiacao: real, config: RateioConfig,
                              i: nat, j: nat)
    requires HasPositive(ps)
    requires i < |Ganhadores(ps, valorPremiacao, config, TiersFor(ps))|
    requires j < |Ganhadores(ps, valorPremiacao, config, TiersFor(ps))|
    requires Ganhadores(ps, valorPremiacao, config, TiersFor(ps))[i].pontuacao
          == Ganhadores(ps, valorPremiacao, config, TiersFor(ps))[j].pontuacao
    ensures Ganhadores(ps, valorPremiacao, config, TiersFor(ps))[i].categoria
         == Ganhadores(ps, valorPremiacao, config, TiersFor(ps))[j].categoria
  {
    GanhadoresFrom(ps, valorPremiacao, config, TiersFor(ps), i);
    GanhadoresFrom(ps, valorPremiacao, config, TiersFor(ps), j);
    PaidTiersDecreasing(ps);
  }

  // ---------------------------------------------------------------------
  // Money and head counts
  // ---------------------------------------------------------------------

  /** The sum of the winners' prizes. */
  function PrizeTotal(ws: seq<Winner>): real {
    if ws == [] then 0.0 else PrizeTotal(ws[..|ws| - 1]) + ws[|ws| - 1].valorPremio
  }

  /** The sum of the tiers' totals. */
  function PoolTotal(ds: seq<Distribution>): real {
    if ds == [] then 0.0 else PoolTotal(ds[..|ds| - 1]) + ds[|ds| - 1].valorTotal
  }

  /** The sum of the tiers' winner counts. */
  function WinnerCount(ds: seq<Distribution>): nat {
    if ds == [] then 0 else WinnerCount(ds[..|ds| - 1]) + ds[|ds| - 1].quantidadeGanhadores
  }

  lemma {:induction false} PrizeTotalConcat(a: seq<Winner>, b: seq<Winner>)
    ensures PrizeTotal(a + b) == PrizeTotal(a) + PrizeTotal(b)
  {
    if b != [] {
      assert (a + b)[..|a + b| - 1] == a + b[..|b| - 1];
      PrizeTotalConcat(a, b[..|b| - 1]);
    } else {
      assert a + b == a;
    }
  }

  lemma {:induction false} PoolTotalConcat(a: seq<Distribution>, b: seq<Distribution>)
    ensures PoolTotal(a + b) == PoolTotal(a) + PoolTotal(b)
    ensures WinnerCount(a + b) == WinnerCount(a) + WinnerCount(b)
  {
    if b != [] {
      assert (a + b)[..|a + b| - 1] == a + b[..|b| - 1];
      PoolTotalConcat(a, b[..|b| - 1]);
    } else {
      assert a + b == a;
    }
  }

  /** `x` added up `n` times. */
  function Times(x: real, n: nat): real {
    if n == 0 then 0.0 else Times(x, n - 1) + x
  }

  lemma {:induction false} TimesMul(x: real, n: nat)
    ensures Times(x, n) == x * n as real
  {
    if n > 0 {
      TimesMul(x, n - 1);
      MulSucc(x, n - 1, n);
    }
  }

  lemma MulSucc(x: real, n: nat, m: nat)
    requires m == n + 1
    ensures x * m as real == x * n as real + x
  {
  }

  /** `n` shares of `x / n` make `x`. */
  lemma DivTimesSum(x: real, n: nat)
    requires n > 0
    ensures Times(x / n as real, n) == x
  {
    TimesMul(x / n as real, n);
    DivTimes(x, n);
  }

  lemma WinnersPrizeTotal(g: seq<ScoredParticipation>, tier: Tier, prize: real)
    ensures PrizeTotal(Winners(g, tier, prize)) == Times(prize, |g|)
  {
    WinnersPrize(g, tier, prize);
    SamePrizeTotal(Winners(g, tier, prize), prize, |g|);
  }

  lemma WinnersPrize(g: seq<ScoredParticipation>, tier: Tier, prize: real)
    ensures forall i :: 0 <= i < |Winners(g, tier, prize)| ==> Winners(g, tier, prize)[i].valorPremio == prize
  {
    var ws := Winners(g, tier, prize);
    forall i | 0 <= i < |ws| ensures ws[i].valorPremio == prize {
      assert ws[i] == WinnerOf(g[i], tier, prize);
    }
  }

  /** Records that all carry one share add up to that share times their
      number. */
  lemma {:induction false} SamePrizeTotal(ws: seq<Winner>, prize: real, n: nat)
    requires n == |ws|
    requires forall i :: 0 <= i < |ws| ==> ws[i].valorPremio == prize
    ensures PrizeTotal(ws) == Times(prize, n)
  {
    if ws != [] {
      SamePrizeTotal(ws[..|ws| - 1], prize, n - 1);
    }
  }

  /** A paid tier's winners receive, together, exactly its record's total,
      and there are as many of them as the record counts. */
  lemma PaidTierSums(ps: seq<ScoredParticipation>, valorPremiacao: real, config: RateioConfig, tier: Tier)
    requires HasPositive(ps) && Paid(TiersFor(ps), tier)
    ensures PrizeTotal(TierWinners(ps, valorPremiacao, tier, TierScore(TiersFor(ps), tier), PctOf(config, tier)))
         == TierRecord(ps, valorPremiacao, config, TiersFor(ps), tier).valorTotal
    ensures |TierWinners(ps, valorPremiacao, tier, TierScore(TiersFor(ps), tier), PctOf(config, tier))|
         == TierRecord(ps, valorPremiacao, config, TiersFor(ps), tier).quantidadeGanhadores
  {
    var t := TiersFor(ps);
    PaidScored(ps, tier);
    TierWinnersTotal(ps, valorPremiacao, tier, TierScore(t, tier), PctOf(config, tier));
  }

  /** The winners of a score that some participation has share the tier's
      total among them. */
  lemma TierWinnersTotal(ps: seq<ScoredParticipation>, valorPremiacao: real, tier: Tier, score: int, pct: real)
    requires ScoredBy(ps, score)
    ensures PrizeTotal(TierWinners(ps, valorPremiacao, tier, score, pct)) == TierTotal(valorPremiacao, pct)
  {
    CountScorePositive(ps, score);
    var g := Filter(ps, HasScore(score));
    var prize := TierPrize(ps, valorPremiacao, score, pct);
    DivTimesSum(TierTotal(valorPremiacao, pct), |g|);
    WinnersTotal(g, tier, prize, TierTotal(valorPremiacao, pct));
  }

  lemma WinnersTotal(g: seq<ScoredParticipation>, tier: Tier, prize: real, total: real)
    requires Times(prize, |g|) == total
    ensures PrizeTotal(Winners(g, tier, prize)) == total
  {
    WinnersPrizeTotal(g, tier, prize);
  }

  /** Per tier, the winners receive what the tier's record allots. */
  lemma TierSums(ps: seq<ScoredParticipation>, valorPremiacao: real, config: RateioConfig, tier: Tier)
    requires HasPositive(ps)
    ensures var t := TiersFor(ps);
            PrizeTotal(WinnersIf(ps, valorPremiacao, config, t, tier))
              == PoolTotal(ItemIf(ps, valorPremiacao, config, t, tier)) &&
            |WinnersIf(ps, valorPremiacao, config, t, tier)| == WinnerCount(ItemIf(ps, valorPremiacao, config, t, tier))
  {
    var t := TiersFor(ps);
    ItemIfFacts(ps, valorPremiacao, config, tier);
    if Paid(t, tier) {
      PaidTierSums(ps, valorPremiacao, config, tier);
      assert [TierRecord(ps, valorPremiacao, config, t, tier)][..0] == [];
    }
  }

  /** What `ganhadores` pays out is what `distribuicao` allots, and there
      is one record per counted winner. */
  lemma GanhadoresSums(ps: seq<ScoredParticipation>, valorPremiacao: real, config: RateioConfig)
    requires HasPositive(ps)
    ensures var t := TiersFor(ps);
            PrizeTotal(Ganhadores(ps, valorPremiacao, config, t)) == PoolTotal(Distribuicao(ps, valorPremiacao, config, t)) &&
            |Ganhadores(ps, valorPremiacao, config, t)| == WinnerCount(Distribuicao(ps, valorPremiacao, config, t))
  {
    var t := TiersFor(ps);
    var a := WinnersIf(ps, valorPremiacao, config, t, Maior);
    var b := WinnersIf(ps, valorPremiacao, config, t, Segunda);
    var c := WinnersIf(ps, valorPremiacao, config, t, Menor);
    var x := ItemIf(ps, valorPremiacao, config, t, Maior);
    var y := ItemIf(ps, valorPremiacao, config, t, Segunda);
    var z := ItemIf(ps, valorPremiacao, config, t, Menor);
    TierSums(ps, valorPremiacao, config, Maior);
    TierSums(ps, valorPremiacao, config, Segunda);
    TierSums(ps, valorPremiacao, config, Menor);
    PrizeTotalConcat(a, b);
    PrizeTotalConcat(a + b, c);
    PoolTotalConcat(x, y);
    PoolTotalConcat(x + y, z);
  }

  /** With ids that identify participations, no participation is paid in
      two tiers: records of one participation share their tier. */
  lemma GanhadoresOneTier(ps: seq<ScoredParticipation>, valorPremiacao: real, config: RateioConfig,
                          i: nat, j: nat)
    requires HasPositive(ps)
    requires forall a, b :: 0 <= a < |ps| && 0 <= b < |ps| && ps[a].id == ps[b].id ==> a == b
    requires i < |Ganhadores(ps, valorPremiacao, config, TiersFor(ps))|
    requires j < |Ganhadores(ps, valorPremiacao, config, TiersFor(ps))|
    requires Ganhadores(ps, valorPremiacao, config, TiersFor(ps))[i].participationId
          == Ganhadores(ps, valorPremiacao, config, TiersFor(ps))[j].participationId
    ensures Ganhadores(ps, valorPremiacao, config, TiersFor(ps))[i].categoria
         == Ganhadores(ps, valorPremiacao, config, TiersFor(ps))[j].categoria
  {
    var g := Ganhadores(ps, valorPremiacao, config, TiersFor(ps));
    GanhadoresFrom(ps, valorPremiacao, config, TiersFor(ps), i);
    GanhadoresFrom(ps, valorPremiacao, config, TiersFor(ps), j);
    assert g[i].pontuacao == g[j].pontuacao by {
      var p :| p in ps && p.currentScore == TierScore(TiersFor(ps), g[i].categoria) && g[i] == WinnerOf(p, g[i].categoria, TierPrize(ps, valorPremiacao, TierScore(TiersFor(ps), g[i].categoria), PctOf(config, g[i].categoria)));
      var q :| q in ps && q.currentScore == TierScore(TiersFor(ps), g[j].categoria) && g[j] == WinnerOf(q, g[j].categoria, TierPrize(ps, valorPremiacao, TierScore(TiersFor(ps), g[j].categoria), PctOf(config, g[j].categoria)));
      var a :| 0 <= a < |ps| && ps[a] == p;
      var b :| 0 <= b < |ps| && ps[b] == q;
    }
    GanhadoresTierByScore(ps, valorPremiacao, config, i, j);
  }

  // ---------------------------------------------------------------------
  // The same promises about the result of `calculateRateio`
  // ---------------------------------------------------------------------

  /** Each record of the result's `ganhadores` is a participation of a paid
      tier at that tier's per-winner share. */
  lemma RateioWinnerFrom(ps: seq<ScoredParticipation>, totalRevenue: real, config: RateioConfig, i: nat)
    requires PercentsValid(config)
    requires i < |Rateio(ps, totalRevenue, config).value.ganhadores|
    ensures HasPositive(ps)
    ensures WinnerFrom(ps, Rateio(ps, totalRevenue, config).value.valorPremiacao, config, TiersFor(ps),
                       Rateio(ps, totalRevenue, config).value.ganhadores[i])
  {
    if !HasPositive(ps) {
      RateioNoScores(ps, totalRevenue, config);
      assert false;
    }
    RateioShape(ps, totalRevenue, config);
    var r := Rateio(ps, totalRevenue, config).value;
    GanhadoresFrom(ps, r.valorPremiacao, config, TiersFor(ps), i);
  }

  /** Every participation with a paid tier's score is in the result's
      `ganhadores`, at that tier's share. */
  lemma RateioWinnerComplete(ps: seq<ScoredParticipation>, totalRevenue: real, config: RateioConfig,
                             p: ScoredParticipation, tier: Tier)
    requires PercentsValid(config) && HasPositive(ps) && p in ps
    requires Paid(TiersFor(ps), tier) && p.currentScore == TierScore(TiersFor(ps), tier)
    ensures var r := Rateio(ps, totalRevenue, config).value;
            WinnerOf(p, tier, TierPrize(ps, r.valorPremiacao, p.currentScore, PctOf(config, tier))) in r.ganhadores
  {
    RateioShape(ps, totalRevenue, config);
    var r := Rateio(ps, totalRevenue, config).value;
    GanhadoresComplete(ps, r.valorPremiacao, config, p, tier);
  }

  /** The result pays out in `ganhadores` exactly what `distribuicao`
      allots, with one record per counted winner. */
  lemma RateioSums(ps: seq<ScoredParticipation>, totalRevenue: real, config: RateioConfig)
    requires PercentsValid(config)
    ensures var r := Rateio(ps, totalRevenue, config).value;
            PrizeTotal(r.ganhadores) == PoolTotal(r.distribuicao) && |r.ganhadores| == WinnerCount(r.distribuicao)
  {
    if HasPositive(ps) {
      RateioShape(ps, totalRevenue, config);
      var r := Rateio(ps, totalRevenue, config).value;
      GanhadoresSums(ps, r.valorPremiacao, config);
    } else {
      RateioNoScores(ps, totalRevenue, config);
    }
  }

  /** With ids that identify participations, no participation is paid in
      two tiers of the result. */
  lemma RateioOneTier(ps: seq<ScoredParticipation>, totalRevenue: real, config: RateioConfig, i: nat, j: nat)
    requires PercentsValid(config)
    requires forall a, b :: 0 <= a < |ps| && 0 <= b < |ps| && ps[a].id == ps[b].id ==> a == b
    requires i < |Rateio(ps, totalRevenue, config).value.ganhadores|
    requires j < |Rateio(ps, totalRevenue, config).value.ganhadores|
    requires Rateio(ps, totalRevenue, config).value.ganhadores[i].participationId
          == Rateio(ps, totalRevenue, config).value.ganhadores[j].participationId
    ensures Rateio(ps, totalRevenue, config).value.ganhadores[i].categoria
         == Rateio(ps, totalRevenue, config).value.ganhadores[j].categoria
  {
    if !HasPositive(ps) {
      RateioNoScores(ps, totalRevenue, config);
      assert false;
    }
    RateioShape(ps, totalRevenue, config);
    var r := Rateio(ps, totalRevenue, config).value;
    GanhadoresOneTier(ps, r.valorPremiacao, config, i, j);
  }

  /** Taking the fee first: a tier's total is `(total - fee) * pct / 100`. */
  lemma FeeFirst(totalRevenue: real, taxa: real, pct: real)
    ensures TierTotal(totalRevenue - Fee(totalRevenue, taxa), pct)
         == (totalRevenue * pct / 100.0) * (100.0 - taxa) / 100.0
  {
  }

  /** Where the two splits differ: the ranking engine's pool for a category
      is `total * pct / 100`; here a tier receives that scaled by
      `(100 - taxa) / 100`, because the percentages apply to what the fee
      leaves. */
  predicate EngineScaled(d: Distribution, totalRevenue: real, taxa: real) {
    d.valorTotal == RankingCalculator.Pool(totalRevenue, d.percentual, d.quantidadeGanhadores) * (100.0 - taxa) / 100.0
  }

  lemma RecordVsEngine(d: Distribution, totalRevenue: real, taxa: real, valorPremiacao: real)
    requires valorPremiacao == totalRevenue - Fee(totalRevenue, taxa)
    requires d.quantidadeGanhadores > 0 && d.valorTotal == TierTotal(valorPremiacao, d.percentual)
    ensures EngineScaled(d, totalRevenue, taxa)
  {
    FeeFirst(totalRevenue, taxa, d.percentual);
  }

  /** Every record of the result is the engine's pool for its percentage,
      less the fee's share. */
  lemma RateioVsEngine(ps: seq<ScoredParticipation>, totalRevenue: real, config: RateioConfig, i: nat)
    requires PercentsValid(config)
    requires i < |Rateio(ps, totalRevenue, config).value.distribuicao|
    ensures EngineScaled(Rateio(ps, totalRevenue, config).value.distribuicao[i], totalRevenue, config.taxa)
  {
    if !HasPositive(ps) {
      RateioNoScores(ps, totalRevenue, config);
      assert false;
    }
    RateioShape(ps, totalRevenue, config);
    var r := Rateio(ps, totalRevenue, config).value;
    DistribuicaoRecords(ps, r.valorPremiacao, config, i);
    RecordVsEngine(r.distribuicao[i], totalRevenue, config.taxa, r.valorPremiacao);
  }

  /** With the default percentages and all three tiers paid, the tiers
      receive 82% of the prize pool between them. */
  lemma DefaultPools(ps: seq<ScoredParticipation>, valorPremiacao: real)
    requires HasPositive(ps) && PaysMenor(TiersFor(ps))
    ensures PoolTotal(Distribuicao(ps, valorPremiacao, DefaultConfig, TiersFor(ps))) == valorPremiacao * 82.0 / 100.0
  {
    var t := TiersFor(ps);
    PaidTiersDecreasing(ps);
    DistribuicaoShape(ps, valorPremiacao, DefaultConfig);
    var a := TierRecord(ps, valorPremiacao, DefaultConfig, t, Maior);
    var b := TierRecord(ps, valorPremiacao, DefaultConfig, t, Segunda);
    var c := TierRecord(ps, valorPremiacao, DefaultConfig, t, Menor);
    assert Distribuicao(ps, valorPremiacao, DefaultConfig, t) == [a, b, c];
    PoolTotalThree(a, b, c);
    assert a.valorTotal + b.valorTotal + c.valorTotal
        == valorPremiacao * 65.0 / 100.0 + valorPremiacao * 10.0 / 100.0 + valorPremiacao * 7.0 / 100.0;
  }

  lemma PoolTotalThree(a: Distribution, b: Distribution, c: Distribution)
    ensures PoolTotal([a, b, c]) == a.valorTotal + b.valorTotal + c.valorTotal
  {
    assert [a, b, c][..2] == [a, b];
    assert PoolTotal([a, b, c]) == PoolTotal([a, b]) + c.valorTotal;
    assert [a, b][..1] == [a];
    assert PoolTotal([a, b]) == PoolTotal([a]) + b.valorTotal;
    assert [a][..0] == [];
    assert PoolTotal([a]) == a.valorTotal;
  }

  /** Because the tier percentages apply to the pool left after the fee,
      the default split with all three tiers paid hands out, fee included,
      85.24% of the total collected; the remaining 14.76% is neither fee
      nor prize. */
  lemma RateioDefaultShare(ps: seq<ScoredParticipation>, totalRevenue: real)
    requires ThreeScores(ps)
    ensures Rateio(ps, totalRevenue, DefaultConfig).Success?
    ensures var r := Rateio(ps, totalRevenue, DefaultConfig).value;
            r.taxaAdministrativa + PoolTotal(r.distribuicao) == totalRevenue * 8524.0 / 10000.0
  {
    var i, j, k :| 0 <= i < |ps| && 0 <= j < |ps| && 0 <= k < |ps| &&
       0 < ps[i].currentScore < ps[j].currentScore < ps[k].currentScore;
    assert HasPositive(ps);
    MenorOfThreeScores(ps);
    RateioShape(ps, totalRevenue, DefaultConfig);
    RateioFee(ps, totalRevenue, DefaultConfig);
    var r := Rateio(ps, totalRevenue, DefaultConfig).value;
    DefaultPools(ps, r.valorPremiacao);
  }
}
