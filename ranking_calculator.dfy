/** The ranking and prize engine (frontend/src/utils/rankingCalculator.ts):
    one pure function from a contest, its draws, its tickets, an optional
    "as of" draw and the money collected to the ordered ranking entries and
    a summary. It is written here as its stages: draw normalisation, the
    anti-fraud cutoff, hit accumulation, categorisation, prize allocation
    and assembly. The properties that relate the stages to the final
    result are in RankingProperties. */
module RankingCalculator {
  import opened Wrappers
  import opened Seqs
  import opened Sorting
  import opened Types
  import opened RankingHelpers

  datatype Category = Top | Second | Lowest | NoCategory

  /** The three medal emoji. */
  datatype Medal = Gold | Silver | Bronze

  datatype User = User(id: string, name: string, email: string)

  /** A ticket: its chosen numbers and when it was created, plus the fields
      the ranking only passes through. */
  datatype Participation = Participation(
    id: string,
    userId: string,
    user: Option<User>,
    ticketCode: Option<string>,
    numbers: seq<int>,
    createdAt: int)

  datatype RankingConfig = RankingConfig(
    contest: Contest,
    participations: seq<Participation>,
    draws: seq<Draw>,
    selectedDrawId: Option<string>,
    totalCollected: real)

  /** A valid ticket with its accumulated hits, before categorisation. */
  datatype BaseEntry = BaseEntry(
    participationId: string,
    userId: string,
    userName: string,
    userEmail: Option<string>,
    ticketCode: Option<string>,
    numbers: seq<int>,
    createdAt: int,
    hitNumbers: seq<int>,
    hitsCount: int,
    score: int,
    isTop: bool)

  datatype RankingEntry = RankingEntry(
    participationId: string,
    userId: string,
    userName: string,
    userEmail: Option<string>,
    ticketCode: Option<string>,
    numbers: seq<int>,
    createdAt: int,
    hitNumbers: seq<int>,
    hitsCount: int,
    score: int,
    category: Category,
    isWinner: bool,
    prizeValue: real,
    highlightRow: bool,
    medal: Option<Medal>,
    position: int)

  datatype RankingSummary = RankingSummary(
    topWinnersCount: nat,
    secondWinnersCount: nat,
    lowestWinnersCount: nat,
    maxScore: int,
    lowestWinningScore: Option<int>,
    hasAnyWinner: bool)

  datatype RankingResult = RankingResult(
    entries: seq<RankingEntry>,
    summary: RankingSummary,
    invalidParticipationsCount: nat)

  // ---------------------------------------------------------------------
  // Draw normalisation

  /** Draws are compared by date alone. */
  function DrawKey(d: Draw): Key {
    (d.drawDate, 0)
  }

  /** The draws in ascending date order (a stable sort). */
  function SortDraws(draws: seq<Draw>): (r: seq<Draw>)
    ensures multiset(r) == multiset(draws)
    ensures forall i, j :: 0 <= i < j < |r| ==> r[i].drawDate <= r[j].drawDate
  {
    SortBySorted(draws, DrawKey);
    SortBy(draws, DrawKey)
  }

  /** A selected draw id counts only when it is a non-empty string. */
  predicate IsGiven(selectedDrawId: Option<string>) {
    selectedDrawId.Some? && selectedDrawId.value != ""
  }

  /** `findIndex(d => d.id === id)`. */
  function FindDrawIndex(draws: seq<Draw>, id: string): (r: int)
    ensures -1 <= r < |draws|
    ensures r == -1 <==> forall i :: 0 <= i < |draws| ==> draws[i].id != id
    ensures r >= 0 ==> draws[r].id == id && forall i :: 0 <= i < r ==> draws[i].id != id
  {
    if |draws| == 0 then -1
    else if draws[0].id == id then 0
    else
      var k := FindDrawIndex(draws[1..], id);
      if k == -1 then -1 else k + 1
  }

  /** `getDrawsUpTo`: the sorted draws up to and including the first one
      with that id, or all of them when there is none. */
  function DrawsUpTo(sorted: seq<Draw>, id: string): seq<Draw> {
    var idx := FindDrawIndex(sorted, id);
    if idx == -1 then sorted else sorted[..idx + 1]
  }

  function DrawsToUse(sorted: seq<Draw>, selectedDrawId: Option<string>): seq<Draw> {
    if IsGiven(selectedDrawId) then DrawsUpTo(sorted, selectedDrawId.value) else sorted
  }

  // ---------------------------------------------------------------------
  // Anti-fraud cutoff

  /** The selected draw's date when an id is given (none if it matches no
      draw), otherwise the latest draw's date, if there is a draw. */
  function CutoffDate(sorted: seq<Draw>, selectedDrawId: Option<string>): Option<int> {
    if IsGiven(selectedDrawId) then
      var idx := FindDrawIndex(sorted, selectedDrawId.value);
      if idx == -1 then None else Some(sorted[idx].drawDate)
    else if |sorted| > 0 then Some(sorted[|sorted| - 1].drawDate)
    else None
  }

  predicate CreatedAfter(cutoff: Option<int>, createdAt: int) {
    cutoff.Some? && createdAt > cutoff.value
  }

  function IsInvalid(cutoff: Option<int>): Participation -> bool {
    (p: Participation) => CreatedAfter(cutoff, p.createdAt)
  }

  function IsValid(cutoff: Option<int>): Participation -> bool {
    (p: Participation) => !CreatedAfter(cutoff, p.createdAt)
  }

  // ---------------------------------------------------------------------
  // Hit accumulation

  function DatedAll(draws: seq<Draw>): (r: seq<DatedNumbers>)
    ensures |r| == |draws|
    ensures forall i :: 0 <= i < |r| ==> r[i] == Dated(draws[i])
  {
    seq(|draws|, i requires 0 <= i < |draws| => Dated(draws[i]))
  }

  /** `p.user?.name || 'Anonimo'`. */
  function UserName(p: Participation): string {
    if p.user.None? || p.user.value.name == "" then "Anonimo" else p.user.value.name
  }

  function UserEmail(p: Participation): Option<string> {
    if p.user.None? then None else Some(p.user.value.email)
  }

  /** The hits a ticket accumulates over the draws in use that took place
      at or after its creation. */
  function TicketHits(p: Participation, drawsToUse: seq<Draw>): seq<int> {
    AllHitNumbers(p.numbers, DatedAll(FilterValidDraws(drawsToUse, p.createdAt)), Some(p.createdAt))
  }

  function BaseEntryOf(p: Participation, drawsToUse: seq<Draw>): BaseEntry {
    var hitNumbers := TicketHits(p, drawsToUse);
    BaseEntry(p.id, p.userId, UserName(p), UserEmail(p), p.ticketCode, p.numbers, p.createdAt,
              hitNumbers, |hitNumbers|, |hitNumbers|, |hitNumbers| == |p.numbers|)
  }

  function BaseEntries(valid: seq<Participation>, drawsToUse: seq<Draw>): (r: seq<BaseEntry>)
    ensures |r| == |valid|
    ensures forall i :: 0 <= i < |r| ==> r[i] == BaseEntryOf(valid[i], drawsToUse)
  {
    seq(|valid|, i requires 0 <= i < |valid| => BaseEntryOf(valid[i], drawsToUse))
  }

  // ---------------------------------------------------------------------
  // Categorisation

  function IdOf(e: BaseEntry): string {
    e.participationId
  }

  /** `new Set(s.map(e => e.participationId))`. */
  function IdsOf(s: seq<BaseEntry>): set<string> {
    set e | e in s :: IdOf(e)
  }

  function BaseScore(e: BaseEntry): int {
    e.score
  }

  /** `s.map(e => e.score)`. */
  function Scores(s: seq<BaseEntry>): seq<int> {
    MapSeq(s, BaseScore)
  }

  datatype Categories = Categories(
    topIds: set<string>,
    secondScore: Option<int>,
    secondIds: set<string>,
    lowestScore: Option<int>,
    lowestIds: set<string>)

  function IsTopBase(): BaseEntry -> bool {
    (e: BaseEntry) => e.isTop
  }

  function NonTopWithScore(topIds: set<string>): BaseEntry -> bool {
    (e: BaseEntry) => e.participationId !in topIds && e.score > 0
  }

  function ScoreIs(v: int): BaseEntry -> bool {
    (e: BaseEntry) => e.score == v
  }

  function Others(topIds: set<string>, secondIds: set<string>): BaseEntry -> bool {
    (e: BaseEntry) => e.participationId !in topIds && e.participationId !in secondIds && e.score >= 0
  }

  /** The ids of the entries that satisfy `p`, each one's id among them. */
  lemma IdsOfFilter(s: seq<BaseEntry>, p: BaseEntry -> bool)
    ensures forall id :: id in IdsOf(Filter(s, p)) <==>
              exists e :: e in s && p(e) && e.participationId == id
  {
    FilterMembership(s, p);
  }

  /** A score some entry reaches is reached by a non-empty set of ids. */
  lemma TierWitness(s: seq<BaseEntry>, m: int)
    requires m in Scores(s)
    ensures exists e :: e in s && e.score == m
    ensures IdsOf(Filter(s, ScoreIs(m))) != {}
    ensures forall id :: id in IdsOf(Filter(s, ScoreIs(m))) <==>
              exists e :: e in s && e.score == m && e.participationId == id
  {
    IdsOfFilter(s, ScoreIs(m));
    var i :| 0 <= i < |s| && Scores(s)[i] == m;
    assert s[i] in s && IdOf(s[i]) in IdsOf(Filter(s, ScoreIs(m)));
  }

  /** The highest score of `s` and the ids that reach it (none if `s` is
      empty). */
  function MaxTier(s: seq<BaseEntry>): (Option<int>, set<string>) {
    if |s| == 0 then (None, {})
    else
      var m := MaxOf(Scores(s));
      (Some(m), IdsOf(Filter(s, ScoreIs(m))))
  }

  /** The lowest score of `s` and the ids that reach it (none if `s` is
      empty). */
  function MinTier(s: seq<BaseEntry>): (Option<int>, set<string>) {
    if |s| == 0 then (None, {})
    else
      var m := MinOf(Scores(s));
      (Some(m), IdsOf(Filter(s, ScoreIs(m))))
  }

  /** A tier is there exactly for a non-empty sequence, has some id exactly
      when it is there, and holds the ids of the entries that reach the
      highest score. */
  lemma MaxTierSpec(s: seq<BaseEntry>)
    ensures MaxTier(s).0.Some? <==> |s| > 0
    ensures MaxTier(s).0.None? <==> MaxTier(s).1 == {}
    ensures MaxTier(s).0.Some? ==> (exists e :: e in s && e.score == MaxTier(s).0.value) &&
                                   forall e :: e in s ==> e.score <= MaxTier(s).0.value
    ensures forall id :: id in MaxTier(s).1 <==>
              MaxTier(s).0.Some? && exists e :: e in s && e.score == MaxTier(s).0.value && e.participationId == id
  {
    if |s| > 0 {
      var m := MaxOf(Scores(s));
      TierWitness(s, m);
      forall e | e in s
        ensures e.score <= m
      {
        var i :| 0 <= i < |s| && s[i] == e;
        assert Scores(s)[i] == e.score;
      }
    }
  }

  /** The same for the lowest score. */
  lemma MinTierSpec(s: seq<BaseEntry>)
    ensures MinTier(s).0.Some? <==> |s| > 0
    ensures MinTier(s).0.None? <==> MinTier(s).1 == {}
    ensures MinTier(s).0.Some? ==> (exists e :: e in s && e.score == MinTier(s).0.value) &&
                                   forall e :: e in s ==> MinTier(s).0.value <= e.score
    ensures forall id :: id in MinTier(s).1 <==>
              MinTier(s).0.Some? && exists e :: e in s && e.score == MinTier(s).0.value && e.participationId == id
  {
    if |s| > 0 {
      var m := MinOf(Scores(s));
      TierWitness(s, m);
      forall e | e in s
        ensures m <= e.score
      {
        var i :| 0 <= i < |s| && s[i] == e;
        assert Scores(s)[i] == e.score;
      }
    }
  }

  function TopIds(bases: seq<BaseEntry>): set<string> {
    IdsOf(Filter(bases, IsTopBase()))
  }

  /** The SECOND tier: the highest score among the tickets outside TOP that
      hit something. */
  function SecondTier(bases: seq<BaseEntry>): (Option<int>, set<string>) {
    MaxTier(Filter(bases, NonTopWithScore(TopIds(bases))))
  }

  /** The LOWEST tier: the lowest score among the tickets in neither TOP nor
      SECOND. */
  function LowestTier(bases: seq<BaseEntry>): (Option<int>, set<string>) {
    MinTier(Filter(bases, Others(TopIds(bases), SecondTier(bases).1)))
  }

  lemma TopIdsSpec(bases: seq<BaseEntry>)
    ensures forall id :: id in TopIds(bases) <==>
              exists e :: e in bases && e.isTop && e.participationId == id
  {
    IdsOfFilter(bases, IsTopBase());
  }

  lemma SecondTierSpec(bases: seq<BaseEntry>)
    ensures SecondTier(bases).0.None? <==> SecondTier(bases).1 == {}
    ensures SecondTier(bases).0.Some? ==> SecondTier(bases).0.value > 0
    ensures forall id :: id in SecondTier(bases).1 ==> id !in TopIds(bases) && id in IdsOf(bases)
  {
    var nonTop := Filter(bases, NonTopWithScore(TopIds(bases)));
    FilterMembership(bases, NonTopWithScore(TopIds(bases)));
    MaxTierSpec(nonTop);
    forall id | id in SecondTier(bases).1
      ensures id !in TopIds(bases) && id in IdsOf(bases)
    {
      var e :| e in nonTop && e.score == SecondTier(bases).0.value && e.participationId == id;
      assert IdOf(e) == id;
    }
  }

  lemma LowestTierSpec(bases: seq<BaseEntry>)
    ensures LowestTier(bases).0.None? <==> LowestTier(bases).1 == {}
    ensures forall id :: id in LowestTier(bases).1 ==>
              id !in TopIds(bases) && id !in SecondTier(bases).1 && id in IdsOf(bases)
  {
    var others := Filter(bases, Others(TopIds(bases), SecondTier(bases).1));
    FilterMembership(bases, Others(TopIds(bases), SecondTier(bases).1));
    MinTierSpec(others);
    forall id | id in LowestTier(bases).1
      ensures id !in TopIds(bases) && id !in SecondTier(bases).1 && id in IdsOf(bases)
    {
      var e :| e in others && e.score == LowestTier(bases).0.value && e.participationId == id;
      assert IdOf(e) == id;
    }
  }

  /** TOP, then the cascading SECOND, then LOWEST (zero hits included). */
  function Categorize(bases: seq<BaseEntry>): Categories {
    var second, lowest := SecondTier(bases), LowestTier(bases);
    Categories(TopIds(bases), second.0, second.1, lowest.0, lowest.1)
  }

  /** The three categories are disjoint sets of ids of the entries; a tier
      has a score exactly when it has ids, and SECOND's score is positive. */
  lemma CategorizeSpec(bases: seq<BaseEntry>)
    ensures var c := Categorize(bases);
            c.topIds !! c.secondIds && c.topIds !! c.lowestIds && c.secondIds !! c.lowestIds
    ensures var c := Categorize(bases);
            (c.secondScore.None? <==> c.secondIds == {}) && (c.lowestScore.None? <==> c.lowestIds == {}) &&
            (c.secondScore.Some? ==> c.secondScore.value > 0)
    ensures var c := Categorize(bases);
            c.topIds <= IdsOf(bases) && c.secondIds <= IdsOf(bases) && c.lowestIds <= IdsOf(bases)
  {
    TopIdsSpec(bases);
    SecondTierSpec(bases);
    LowestTierSpec(bases);
  }

  /** The category with precedence TOP > SECOND > LOWEST > NONE. */
  function CategoryOf(id: string, c: Categories): Category {
    if id in c.topIds then Top
    else if id in c.secondIds then Second
    else if id in c.lowestIds then Lowest
    else NoCategory
  }

  // ---------------------------------------------------------------------
  // Prize allocation

  /** `pct || default`: a missing or zero percentage takes the default. */
  function PctOr(pct: Option<real>, default: real): (r: real)
    ensures pct.Some? && pct.value != 0.0 ==> r == pct.value
    ensures pct.None? || pct.value == 0.0 ==> r == default
  {
    if pct.None? || pct.value == 0.0 then default else pct.value
  }

  /** A category's pool: its share of the total when it has a winner. */
  function Pool(total: real, pct: real, winners: nat): real {
    if winners > 0 then total * pct / 100.0 else 0.0
  }

  function PerWinner(pool: real, winners: nat): real {
    if winners > 0 then pool / winners as real else 0.0
  }

  datatype Prizes = Prizes(
    topTotal: real, secondTotal: real, lowestTotal: real,
    topPrizePerWinner: real, secondPrizePerWinner: real, lowestPrizePerWinner: real)

  function Allocate(contest: Contest, totalCollected: real, c: Categories): (z: Prizes)
    ensures z.topTotal == if |c.topIds| > 0 then totalCollected * PctOr(contest.firstPlacePct, 65.0) / 100.0 else 0.0
    ensures z.secondTotal == if |c.secondIds| > 0 then totalCollected * PctOr(contest.secondPlacePct, 10.0) / 100.0 else 0.0
    ensures z.lowestTotal == if |c.lowestIds| > 0 then totalCollected * PctOr(contest.lowestPlacePct, 7.0) / 100.0 else 0.0
    ensures z.topPrizePerWinner * |c.topIds| as real == z.topTotal
    ensures z.secondPrizePerWinner * |c.secondIds| as real == z.secondTotal
    ensures z.lowestPrizePerWinner * |c.lowestIds| as real == z.lowestTotal
  {
    var topTotal := Pool(totalCollected, PctOr(contest.firstPlacePct, 65.0), |c.topIds|);
    var secondTotal := Pool(totalCollected, PctOr(contest.secondPlacePct, 10.0), |c.secondIds|);
    var lowestTotal := Pool(totalCollected, PctOr(contest.lowestPlacePct, 7.0), |c.lowestIds|);
    Prizes(topTotal, secondTotal, lowestTotal,
           PerWinner(topTotal, |c.topIds|), PerWinner(secondTotal, |c.secondIds|),
           PerWinner(lowestTotal, |c.lowestIds|))
  }

  function PrizeOf(category: Category, z: Prizes): real {
    match category
    case Top => z.topPrizePerWinner
    case Second => z.secondPrizePerWinner
    case Lowest => z.lowestPrizePerWinner
    case NoCategory => 0.0
  }

  function MedalOf(category: Category): Option<Medal> {
    match category
    case Top => Some(Gold)
    case Second => Some(Silver)
    case Lowest => Some(Bronze)
    case NoCategory => None
  }

  // ---------------------------------------------------------------------
  // Assembly

  /** Score descending, then creation ascending. */
  function EntryKey(e: BaseEntry): Key {
    (-e.score, e.createdAt)
  }

  function EntryOf(b: BaseEntry, idx: nat, c: Categories, z: Prizes): RankingEntry {
    var category := CategoryOf(b.participationId, c);
    var isWinner := category != NoCategory;
    RankingEntry(b.participationId, b.userId, b.userName, b.userEmail, b.ticketCode, b.numbers,
                 b.createdAt, b.hitNumbers, b.hitsCount, b.score, category, isWinner,
                 PrizeOf(category, z), isWinner, MedalOf(category), idx + 1)
  }

  function Entries(ordered: seq<BaseEntry>, c: Categories, z: Prizes): (r: seq<RankingEntry>)
    ensures |r| == |ordered|
    ensures forall i :: 0 <= i < |r| ==> r[i] == EntryOf(ordered[i], i, c, z)
  {
    seq(|ordered|, i requires 0 <= i < |ordered| => EntryOf(ordered[i], i, c, z))
  }

  function EntryScore(e: RankingEntry): int {
    e.score
  }

  /** `entries.map(e => e.score)`. */
  function EntryScores(entries: seq<RankingEntry>): seq<int> {
    MapSeq(entries, EntryScore)
  }

  function Summarize(entries: seq<RankingEntry>, c: Categories): RankingSummary {
    RankingSummary(
      |c.topIds|, |c.secondIds|, |c.lowestIds|,
      if |entries| > 0 then MaxOf(EntryScores(entries)) else 0,
      c.lowestScore,
      |c.topIds| > 0 || |c.secondIds| > 0 || |c.lowestIds| > 0)
  }

  /** The draws a run uses and its cutoff, from the sorted draws. */
  function DrawsInUse(config: RankingConfig): seq<Draw> {
    DrawsToUse(SortDraws(config.draws), config.selectedDrawId)
  }

  function Cutoff(config: RankingConfig): Option<int> {
    CutoffDate(SortDraws(config.draws), config.selectedDrawId)
  }

  /** The tickets a run ranks and those it counts as invalid. */
  function ValidTickets(config: RankingConfig): seq<Participation> {
    Filter(config.participations, IsValid(Cutoff(config)))
  }

  function InvalidTickets(config: RankingConfig): seq<Participation> {
    Filter(config.participations, IsInvalid(Cutoff(config)))
  }

  /** The ranked entries and the summary. */
  datatype Ranking = Ranking(entries: seq<RankingEntry>, summary: RankingSummary)

  /** Steps 5 to 9: hits, categories, prizes, order and summary of the
      valid tickets against the draws in use. */
  function Rank(contest: Contest, totalCollected: real, valid: seq<Participation>,
                drawsToUse: seq<Draw>): Ranking
  {
    var bases := BaseEntries(valid, drawsToUse);
    var c := Categorize(bases);
    var entries := Entries(SortBy(bases, EntryKey), c, Allocate(contest, totalCollected, c));
    Ranking(entries, Summarize(entries, c))
  }

  const EmptySummary := RankingSummary(0, 0, 0, 0, None, false)

  /** `calculateRanking`. */
  function CalculateRanking(config: RankingConfig): (r: RankingResult)
    ensures |config.participations| == 0 ==>
              r.entries == [] && r.summary == EmptySummary && r.invalidParticipationsCount == 0
    ensures |r.entries| + r.invalidParticipationsCount == |config.participations|
    ensures forall i :: 0 <= i < |r.entries| ==> r.entries[i].position == i + 1
  {
    if |config.participations| == 0 then RankingResult([], EmptySummary, 0)
    else
      var ranking := Rank(config.contest, config.totalCollected, ValidTickets(config), DrawsInUse(config));
      FilterSplit(config.participations, IsValid(Cutoff(config)), IsInvalid(Cutoff(config)));
      RankingResult(ranking.entries, ranking.summary, |InvalidTickets(config)|)
  }

  /** `createRankingMap`: `map.set(e.participationId, e)` for each entry in
      turn, so a later entry with the same id replaces an earlier one. */
  method CreateRankingMap(entries: seq<RankingEntry>) returns (m: map<string, RankingEntry>)
    ensures m.Keys == set e | e in entries :: e.participationId
    ensures forall i :: 0 <= i < |entries| &&
              (forall j :: i < j < |entries| ==> entries[j].participationId != entries[i].participationId)
              ==> m[entries[i].participationId] == entries[i]
    ensures forall id :: id in m ==> m[id] in entries && m[id].participationId == id
  {
    m := map[];
    var k := 0;
    while k < |entries|
      invariant 0 <= k <= |entries|
      invariant KeysOf(entries, k, m)
      invariant LastWins(entries, k, m)
      invariant ValuesFrom(entries, m)
    {
      IdsStep(entries, k);
      LastWinsStep(entries, k, m);
      m := m[entries[k].participationId := entries[k]];
      k := k + 1;
    }
    assert entries[..k] == entries;
    forall i | 0 <= i < |entries| &&
               (forall j :: i < j < |entries| ==> entries[j].participationId != entries[i].participationId)
      ensures m[entries[i].participationId] == entries[i]
    {
      assert LastIn(entries, k, i);
    }
  }

  /** The map's keys are the ids of the first `k` entries. */
  ghost predicate KeysOf(entries: seq<RankingEntry>, k: nat, m: map<string, RankingEntry>)
    requires k <= |entries|
  {
    m.Keys == set e | e in entries[..k] :: e.participationId
  }

  /** Entry `i` is the last among the first `k` with its id. */
  ghost predicate LastIn(entries: seq<RankingEntry>, k: nat, i: nat)
    requires i < k <= |entries|
  {
    forall j :: i < j < k ==> entries[j].participationId != entries[i].participationId
  }

  /** Among the first `k` entries, the last one with each id is the one
      stored under that id. */
  ghost predicate LastWins(entries: seq<RankingEntry>, k: nat, m: map<string, RankingEntry>)
    requires k <= |entries|
  {
    forall i :: 0 <= i < k && LastIn(entries, k, i) ==> entries[i].participationId in m && m[entries[i].participationId] == entries[i]
  }

  /** Every stored entry is one of the entries, under its own id. */
  ghost predicate ValuesFrom(entries: seq<RankingEntry>, m: map<string, RankingEntry>) {
    forall id :: id in m ==> m[id] in entries && m[id].participationId == id
  }

  lemma IdsStep(entries: seq<RankingEntry>, k: nat)
    requires k < |entries|
    ensures (set e | e in entries[..k + 1] :: e.participationId)
         == (set e | e in entries[..k] :: e.participationId) + {entries[k].participationId}
  {
    assert entries[..k + 1] == entries[..k] + [entries[k]];
  }

  /** Storing entry `k` under its id keeps `LastWins` for one more entry. */
  lemma LastWinsStep(entries: seq<RankingEntry>, k: nat, m: map<string, RankingEntry>)
    requires k < |entries| && LastWins(entries, k, m)
    ensures LastWins(entries, k + 1, m[entries[k].participationId := entries[k]])
  {
    var m' := m[entries[k].participationId := entries[k]];
    forall i | 0 <= i < k + 1 && LastIn(entries, k + 1, i)
      ensures entries[i].participationId in m' && m'[entries[i].participationId] == entries[i]
    {
      if i < k {
        assert entries[k].participationId != entries[i].participationId;
        assert LastIn(entries, k, i);
      }
    }
  }
}
