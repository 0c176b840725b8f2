/** What `calculateRanking` promises, proved about the stages written out
    in RankingCalculator: the draws and the cutoff that are used, which
    tickets are ranked, what each entry's hits are, how the categories,
    prizes and summary follow, and the order of the entries. */
module RankingProperties {
  import opened Wrappers
  import opened Seqs
  import opened Sorting
  import opened Types
  import opened RankingHelpers
  import opened RankingCalculator

  function PartId(p: Participation): string {
    p.id
  }

  /** No two tickets share an identifier, as for rows keyed by their id. */
  ghost predicate DistinctIds(ps: seq<Participation>) {
    DistinctBy(ps, PartId)
  }

  // ---------------------------------------------------------------------
  // Draws in use and the cutoff

  lemma SortDrawsMembers(draws: seq<Draw>)
    ensures |SortDraws(draws)| == |draws|
    ensures forall d :: d in SortDraws(draws) <==> d in draws
  {
    var r := SortDraws(draws);
    assert |r| == |multiset(r)| == |multiset(draws)| == |draws|;
    assert forall d :: d in r <==> d in multiset(r);
  }

  /** Without a selected draw the cutoff is the latest draw date, and there
      is none when there are no draws. */
  lemma CutoffLatest(draws: seq<Draw>, selectedDrawId: Option<string>)
    requires !IsGiven(selectedDrawId)
    ensures CutoffDate(SortDraws(draws), selectedDrawId).None? <==> |draws| == 0
    ensures CutoffDate(SortDraws(draws), selectedDrawId).Some? ==>
              var c := CutoffDate(SortDraws(draws), selectedDrawId).value;
              (exists d :: d in draws && d.drawDate == c) && forall d :: d in draws ==> d.drawDate <= c
  {
    var sorted := SortDraws(draws);
    SortDrawsMembers(draws);
    if |draws| > 0 {
      var last := sorted[|sorted| - 1];
      assert last in draws;
      forall d | d in draws
        ensures d.drawDate <= last.drawDate
      {
        var j :| 0 <= j < |sorted| && sorted[j] == d;
      }
    }
  }

  /** With a selected draw the cutoff is the date of the earliest draw with
      that id, and there is none when no draw has it. */
  lemma CutoffSelected(draws: seq<Draw>, selectedDrawId: Option<string>)
    requires IsGiven(selectedDrawId)
    ensures CutoffDate(SortDraws(draws), selectedDrawId).None? <==>
              forall d :: d in draws ==> d.id != selectedDrawId.value
    ensures CutoffDate(SortDraws(draws), selectedDrawId).Some? ==>
              var c := CutoffDate(SortDraws(draws), selectedDrawId).value;
              (exists d :: d in draws && d.id == selectedDrawId.value && d.drawDate == c) &&
              forall d :: d in draws && d.id == selectedDrawId.value ==> c <= d.drawDate
  {
    var sorted := SortDraws(draws);
    SortDrawsMembers(draws);
    var idx := FindDrawIndex(sorted, selectedDrawId.value);
    if idx == -1 {
      forall d | d in draws
        ensures d.id != selectedDrawId.value
      {
        var j :| 0 <= j < |sorted| && sorted[j] == d;
      }
    } else {
      assert sorted[idx] in draws;
      forall d | d in draws && d.id == selectedDrawId.value
        ensures sorted[idx].drawDate <= d.drawDate
      {
        var j :| 0 <= j < |sorted| && sorted[j] == d;
        assert j >= idx;
      }
    }
  }

  /** Over draws already in date order: the draws in use are a prefix. When
      there is a cutoff, they end with the draw that sets it (the selected
      one, when an id is given) and none of them is later than it;
      otherwise all the draws are used. */
  lemma DrawsToUsePrefix(sorted: seq<Draw>, selectedDrawId: Option<string>)
    requires forall i, j :: 0 <= i < j < |sorted| ==> sorted[i].drawDate <= sorted[j].drawDate
    ensures var u := DrawsToUse(sorted, selectedDrawId);
            |u| <= |sorted| && u == sorted[..|u|]
    ensures var u := DrawsToUse(sorted, selectedDrawId);
            var cutoff := CutoffDate(sorted, selectedDrawId);
            (cutoff.None? || !IsGiven(selectedDrawId) ==> u == sorted) &&
            (cutoff.Some? ==> |u| > 0 && cutoff.value == u[|u| - 1].drawDate &&
                              forall d :: d in u ==> d.drawDate <= cutoff.value)
    ensures var u := DrawsToUse(sorted, selectedDrawId);
            CutoffDate(sorted, selectedDrawId).Some? && IsGiven(selectedDrawId) ==>
              u[|u| - 1].id == selectedDrawId.value &&
              forall i :: 0 <= i < |u| - 1 ==> u[i].id != selectedDrawId.value
  {
    var u := DrawsToUse(sorted, selectedDrawId);
    var cutoff := CutoffDate(sorted, selectedDrawId);
    if cutoff.Some? {
      forall d | d in u
        ensures d.drawDate <= cutoff.value
      {
        var j :| 0 <= j < |u| && u[j] == d;
        assert sorted[j] == d;
      }
    }
  }

  /** The same for the engine's sorted draws; those in use are among the
      given draws. */
  lemma DrawsToUseSpec(draws: seq<Draw>, selectedDrawId: Option<string>)
    ensures var sorted := SortDraws(draws);
            var u := DrawsToUse(sorted, selectedDrawId);
            var cutoff := CutoffDate(sorted, selectedDrawId);
            u == sorted[..|u|] && (forall d :: d in u ==> d in draws) &&
            (cutoff.None? || !IsGiven(selectedDrawId) ==> u == sorted) &&
            (cutoff.Some? ==> |u| > 0 && cutoff.value == u[|u| - 1].drawDate &&
                              forall d :: d in u ==> d.drawDate <= cutoff.value)
  {
    var sorted := SortDraws(draws);
    SortDrawsMembers(draws);
    DrawsToUsePrefix(sorted, selectedDrawId);
    PrefixWithin(sorted, DrawsToUse(sorted, selectedDrawId), draws);
  }

  lemma PrefixWithin(s: seq<Draw>, u: seq<Draw>, draws: seq<Draw>)
    requires |u| <= |s| && u == s[..|u|]
    requires forall d :: d in s ==> d in draws
    ensures forall d :: d in u ==> d in draws
  {
    forall d | d in u
      ensures d in draws
    {
      var j :| 0 <= j < |u| && u[j] == d;
      assert s[j] == d;
    }
  }

  // ---------------------------------------------------------------------
  // Which tickets are ranked

  /** A ticket is excluded exactly when it was created strictly after the
      cutoff. */
  lemma ValidSplit(config: RankingConfig)
    ensures var cutoff := Cutoff(config);
            forall p :: p in ValidTickets(config) <==>
              p in config.participations && !(cutoff.Some? && p.createdAt > cutoff.value)
    ensures var cutoff := Cutoff(config);
            forall p :: p in InvalidTickets(config) <==>
              p in config.participations && cutoff.Some? && p.createdAt > cutoff.value
  {
    var cutoff := Cutoff(config);
    var valid, invalid := ValidTickets(config), InvalidTickets(config);
    FilterMembership(config.participations, IsValid(cutoff));
    FilterMembership(config.participations, IsInvalid(cutoff));
  }

  lemma ValidTicket(config: RankingConfig, p: Participation)
    requires p in ValidTickets(config)
    ensures p in config.participations && !(Cutoff(config).Some? && p.createdAt > Cutoff(config).value)
  {
    FilterMember(config.participations, IsValid(Cutoff(config)), p);
  }

  /** Every ticket is either ranked or counted as invalid, and without a
      cutoff every ticket is ranked. */
  lemma ValidPartition(config: RankingConfig)
    ensures multiset(ValidTickets(config)) + multiset(InvalidTickets(config)) == multiset(config.participations)
    ensures Cutoff(config).None? ==> ValidTickets(config) == config.participations && InvalidTickets(config) == []
  {
    var cutoff := Cutoff(config);
    var valid, invalid := ValidTickets(config), InvalidTickets(config);
    FilterSplit(config.participations, IsValid(cutoff), IsInvalid(cutoff));
    if cutoff.None? {
      FilterAll(config.participations, IsValid(cutoff));
      FilterLength(config.participations, IsInvalid(cutoff));
    }
  }

  /** With no draws at all there is no cutoff, so nothing is excluded. */
  lemma NoDrawsNoCutoff(config: RankingConfig)
    requires |config.draws| == 0
    ensures Cutoff(config).None?
    ensures ValidTickets(config) == config.participations && InvalidTickets(config) == []
  {
    if IsGiven(config.selectedDrawId) {
      CutoffSelected(config.draws, config.selectedDrawId);
    } else {
      CutoffLatest(config.draws, config.selectedDrawId);
    }
    ValidPartition(config);
  }

  /** A run with tickets ranks its valid tickets against the draws in use
      and counts the others as invalid; distinct ticket ids stay distinct
      among the ranked tickets. */
  lemma RunStages(config: RankingConfig)
    requires |config.participations| > 0
    ensures var r := CalculateRanking(config);
            var ranking := Rank(config.contest, config.totalCollected, ValidTickets(config), DrawsInUse(config));
            r.entries == ranking.entries && r.summary == ranking.summary &&
            r.invalidParticipationsCount == |InvalidTickets(config)|
    ensures DistinctIds(config.participations) ==> DistinctBy(ValidTickets(config), PartId)
  {
    if DistinctIds(config.participations) {
      FilterDistinctBy(config.participations, IsValid(Cutoff(config)), PartId);
    }
  }

  // ---------------------------------------------------------------------
  // Entries and the tickets they come from

  /** `e` carries ticket `p`'s data and the hits it accumulated. */
  ghost predicate EntryFor(e: RankingEntry, p: Participation, drawsToUse: seq<Draw>) {
    e.participationId == p.id && e.userId == p.userId && e.userName == UserName(p) &&
    e.userEmail == UserEmail(p) && e.ticketCode == p.ticketCode && e.numbers == p.numbers &&
    e.createdAt == p.createdAt && e.hitNumbers == TicketHits(p, drawsToUse) &&
    e.hitsCount == |e.hitNumbers| && e.score == |e.hitNumbers|
  }

  /** A base entry whose score, hit count and TOP flag agree with its hits. */
  ghost predicate Coherent(b: BaseEntry) {
    b.score == |b.hitNumbers| && b.hitsCount == b.score && b.isTop == (|b.hitNumbers| == |b.numbers|)
  }

  ghost predicate AllCoherent(bases: seq<BaseEntry>) {
    forall b :: b in bases ==> Coherent(b)
  }

  ghost predicate UniqueIds(bases: seq<BaseEntry>) {
    forall a, b :: a in bases && b in bases && a.participationId == b.participationId ==> a == b
  }

  lemma BasesCoherent(valid: seq<Participation>, drawsToUse: seq<Draw>)
    ensures AllCoherent(BaseEntries(valid, drawsToUse))
  {
    var bases := BaseEntries(valid, drawsToUse);
    forall b | b in bases
      ensures Coherent(b)
    {
      var j :| 0 <= j < |bases| && bases[j] == b;
    }
  }

  /** Every base entry comes from a ranked ticket, and every ranked ticket
      has one. */
  lemma BasesFacts(valid: seq<Participation>, drawsToUse: seq<Draw>)
    ensures var bases := BaseEntries(valid, drawsToUse);
            (forall b :: b in bases ==> exists p :: p in valid && b == BaseEntryOf(p, drawsToUse)) &&
            (forall p :: p in valid ==> BaseEntryOf(p, drawsToUse) in bases)
  {
    var bases := BaseEntries(valid, drawsToUse);
    forall b | b in bases
      ensures exists p :: p in valid && b == BaseEntryOf(p, drawsToUse)
    {
      var j :| 0 <= j < |bases| && bases[j] == b;
      assert valid[j] in valid;
    }
    forall p | p in valid
      ensures BaseEntryOf(p, drawsToUse) in bases
    {
      var j :| 0 <= j < |valid| && valid[j] == p;
      assert bases[j] == BaseEntryOf(p, drawsToUse);
    }
  }

  /** Distinct ticket ids stay distinct among the base entries. */
  lemma BasesDistinct(valid: seq<Participation>, drawsToUse: seq<Draw>)
    requires DistinctBy(valid, PartId)
    ensures DistinctBy(BaseEntries(valid, drawsToUse), IdOf)
    ensures UniqueIds(BaseEntries(valid, drawsToUse))
  {
    var bases := BaseEntries(valid, drawsToUse);
    assert forall i :: 0 <= i < |bases| ==> IdOf(bases[i]) == PartId(valid[i]);
    DistinctByUnique(bases, IdOf);
  }

  /** The ranking order holds the same base entries. */
  lemma OrderedFacts(bases: seq<BaseEntry>)
    ensures |SortBy(bases, EntryKey)| == |bases|
    ensures forall b :: b in SortBy(bases, EntryKey) <==> b in bases
  {
    var ordered := SortBy(bases, EntryKey);
    assert forall b :: b in ordered <==> b in multiset(ordered);
  }

  /** Each entry of the ranking order carries one ranked ticket's data. */
  lemma EntryFromTicket(valid: seq<Participation>, drawsToUse: seq<Draw>, c: Categories, z: Prizes, i: int)
    requires 0 <= i < |valid|
    ensures |Entries(SortBy(BaseEntries(valid, drawsToUse), EntryKey), c, z)| == |valid|
    ensures exists p :: p in valid && EntryFor(Entries(SortBy(BaseEntries(valid, drawsToUse), EntryKey), c, z)[i], p, drawsToUse)
  {
    var bases := BaseEntries(valid, drawsToUse);
    var ordered := SortBy(bases, EntryKey);
    var es := Entries(ordered, c, z);
    assert ordered[i] in multiset(ordered);
    var k :| 0 <= k < |bases| && bases[k] == ordered[i];
    EntryOfTicket(ordered[i], i, c, z, valid[k], drawsToUse);
  }

  lemma EntryOfTicket(b: BaseEntry, i: nat, c: Categories, z: Prizes, p: Participation, drawsToUse: seq<Draw>)
    requires b == BaseEntryOf(p, drawsToUse)
    ensures EntryFor(EntryOf(b, i, c, z), p, drawsToUse)
  {
  }

  /** Each ranked ticket has an entry. */
  lemma TicketsHaveEntries(valid: seq<Participation>, drawsToUse: seq<Draw>, c: Categories, z: Prizes)
    ensures var es := Entries(SortBy(BaseEntries(valid, drawsToUse), EntryKey), c, z);
            forall p :: p in valid ==> exists i :: 0 <= i < |es| && EntryFor(es[i], p, drawsToUse)
  {
    var bases := BaseEntries(valid, drawsToUse);
    var ordered := SortBy(bases, EntryKey);
    var es := Entries(ordered, c, z);
    BasesFacts(valid, drawsToUse);
    OrderedFacts(bases);
    forall p | p in valid
      ensures exists i :: 0 <= i < |es| && EntryFor(es[i], p, drawsToUse)
    {
      var b := BaseEntryOf(p, drawsToUse);
      var i :| 0 <= i < |ordered| && ordered[i] == b;
      EntryOfTicket(b, i, c, z, p, drawsToUse);
    }
  }

  /** A draw `d` in use hit number `n` on or after the ticket's creation. */
  ghost predicate HitSince(drawsToUse: seq<Draw>, createdAt: int, n: int) {
    exists d :: d in drawsToUse && d.drawDate >= createdAt && n in d.numbers
  }

  lemma TicketHitByOnly(p: Participation, drawsToUse: seq<Draw>, n: int)
    requires HitBy(ValidDated(DatedAll(FilterValidDraws(drawsToUse, p.createdAt)), Some(p.createdAt)), n)
    ensures HitSince(drawsToUse, p.createdAt, n)
  {
    var fv := FilterValidDraws(drawsToUse, p.createdAt);
    var dated := DatedAll(fv);
    var vd := ValidDated(dated, Some(p.createdAt));
    var dn :| dn in vd && n in dn.numbers;
    var i :| 0 <= i < |dated| && dated[i] == dn;
    assert fv[i] in fv;
  }

  lemma TicketHitByAll(p: Participation, drawsToUse: seq<Draw>, n: int)
    requires HitSince(drawsToUse, p.createdAt, n)
    ensures HitBy(ValidDated(DatedAll(FilterValidDraws(drawsToUse, p.createdAt)), Some(p.createdAt)), n)
  {
    var fv := FilterValidDraws(drawsToUse, p.createdAt);
    var dated := DatedAll(fv);
    var vd := ValidDated(dated, Some(p.createdAt));
    var d :| d in drawsToUse && d.drawDate >= p.createdAt && n in d.numbers;
    assert d in fv;
    var i :| 0 <= i < |fv| && fv[i] == d;
    var dn := dated[i];
    assert dn == Dated(d) && dn in dated;
    ValidDatedMember(dated, p.createdAt, dn);
  }

  lemma ValidDatedMember(dated: seq<DatedNumbers>, createdAt: int, dn: DatedNumbers)
    requires dn in dated && dn.drawDate.Some? && dn.drawDate.value >= createdAt
    ensures dn in ValidDated(dated, Some(createdAt))
  {
  }

  /** The draws `getAllHitNumbers` counts for a ticket hit a number exactly
      when a draw in use hit it on or after the ticket's creation. */
  lemma TicketHitBy(p: Participation, drawsToUse: seq<Draw>, n: int)
    ensures HitBy(ValidDated(DatedAll(FilterValidDraws(drawsToUse, p.createdAt)), Some(p.createdAt)), n)
            <==> HitSince(drawsToUse, p.createdAt, n)
  {
    if HitBy(ValidDated(DatedAll(FilterValidDraws(drawsToUse, p.createdAt)), Some(p.createdAt)), n) {
      TicketHitByOnly(p, drawsToUse, n);
    }
    if HitSince(drawsToUse, p.createdAt, n) {
      TicketHitByAll(p, drawsToUse, n);
    }
  }

  /** A ticket's hits: strictly ascending, no more than its numbers, and
      exactly its numbers that a draw in use hit on or after its creation.
      With no repeated number on the ticket, it hits as many numbers as it
      has exactly when every one of them was drawn. */
  lemma TicketHitsSpec(p: Participation, drawsToUse: seq<Draw>)
    ensures StrictlyAscending(TicketHits(p, drawsToUse))
    ensures forall n :: n in TicketHits(p, drawsToUse) <==>
              n in p.numbers && HitSince(drawsToUse, p.createdAt, n)
    ensures |TicketHits(p, drawsToUse)| <= |p.numbers|
    ensures Distinct(p.numbers) ==>
              (|TicketHits(p, drawsToUse)| == |p.numbers| <==>
               forall n :: n in p.numbers ==> HitSince(drawsToUse, p.createdAt, n))
  {
    var dated := DatedAll(FilterValidDraws(drawsToUse, p.createdAt));
    AllHitNumbersSpec(p.numbers, dated, Some(p.createdAt));
    forall n
      ensures n in TicketHits(p, drawsToUse) <==> n in p.numbers && HitSince(drawsToUse, p.createdAt, n)
    {
      TicketHitBy(p, drawsToUse, n);
    }
    StrictlyAscendingWithin(TicketHits(p, drawsToUse), p.numbers);
  }

  ghost predicate AllHit(e: RankingEntry) {
    |e.hitNumbers| == |e.numbers|
  }

  lemma EntryForHits(e: RankingEntry, p: Participation, drawsToUse: seq<Draw>)
    requires EntryFor(e, p, drawsToUse)
    ensures e.score == e.hitsCount == |e.hitNumbers| <= |e.numbers|
    ensures StrictlyAscending(e.hitNumbers)
    ensures forall n :: n in e.hitNumbers <==> n in e.numbers && HitSince(drawsToUse, e.createdAt, n)
  {
    TicketHitsSpec(p, drawsToUse);
  }

  // ---------------------------------------------------------------------
  // Categories over the base entries

  lemma BasesTop(bases: seq<BaseEntry>, b: BaseEntry)
    requires UniqueIds(bases) && b in bases
    ensures b.participationId in TopIds(bases) <==> b.isTop
  {
    TopIdsSpec(bases);
  }

  /** Under distinct ids, a ticket outside TOP is picked out by the SECOND
      filter exactly when it hits something. */
  lemma NonTopMembers(bases: seq<BaseEntry>)
    requires UniqueIds(bases)
    ensures forall e :: e in Filter(bases, NonTopWithScore(TopIds(bases))) <==>
              e in bases && !e.isTop && e.score > 0
  {
    FilterMembership(bases, NonTopWithScore(TopIds(bases)));
    TopIdsSpec(bases);
  }

  lemma BasesSecond(bases: seq<BaseEntry>, b: BaseEntry)
    requires UniqueIds(bases) && b in bases
    ensures b.participationId in SecondTier(bases).1 <==>
              !b.isTop && b.score > 0 &&
              forall e :: e in bases && !e.isTop && e.score > 0 ==> e.score <= b.score
  {
    var nonTop := Filter(bases, NonTopWithScore(TopIds(bases)));
    NonTopMembers(bases);
    MaxTierSpec(nonTop);
    var t := MaxTier(nonTop);
    if b.participationId in t.1 {
      var e :| e in nonTop && e.score == t.0.value && e.participationId == b.participationId;
      assert e == b;
    }
    if !b.isTop && b.score > 0 && forall e :: e in bases && !e.isTop && e.score > 0 ==> e.score <= b.score {
      assert b in nonTop;
      var e0 :| e0 in nonTop && e0.score == t.0.value;
      assert b.score == t.0.value;
    }
  }

  /** SECOND is empty exactly when every ticket outside TOP hit nothing. */
  lemma BasesSecondNone(bases: seq<BaseEntry>)
    requires UniqueIds(bases)
    ensures SecondTier(bases).0.None? <==> forall e :: e in bases ==> e.isTop || e.score <= 0
  {
    var nonTop := Filter(bases, NonTopWithScore(TopIds(bases)));
    NonTopMembers(bases);
    MaxTierSpec(nonTop);
    if |nonTop| > 0 {
      assert nonTop[0] in nonTop;
    }
  }

  /** Neither TOP nor SECOND. */
  ghost predicate InRest(bases: seq<BaseEntry>, e: BaseEntry) {
    e.participationId !in TopIds(bases) && e.participationId !in SecondTier(bases).1
  }

  lemma BasesLowestOnly(bases: seq<BaseEntry>, b: BaseEntry)
    requires UniqueIds(bases) && b in bases
    requires forall e :: e in bases ==> e.score >= 0
    requires b.participationId in LowestTier(bases).1
    ensures InRest(bases, b) && forall e :: e in bases && InRest(bases, e) ==> b.score <= e.score
  {
    var others := Filter(bases, Others(TopIds(bases), SecondTier(bases).1));
    FilterMembership(bases, Others(TopIds(bases), SecondTier(bases).1));
    MinTierSpec(others);
    var t := MinTier(others);
    var e :| e in others && e.score == t.0.value && e.participationId == b.participationId;
    assert e == b;
  }

  lemma BasesLowestAll(bases: seq<BaseEntry>, b: BaseEntry)
    requires b in bases
    requires forall e :: e in bases ==> e.score >= 0
    requires InRest(bases, b) && forall e :: e in bases && InRest(bases, e) ==> b.score <= e.score
    ensures b.participationId in LowestTier(bases).1
  {
    var others := Filter(bases, Others(TopIds(bases), SecondTier(bases).1));
    FilterMembership(bases, Others(TopIds(bases), SecondTier(bases).1));
    MinTierSpec(others);
    var t := MinTier(others);
    assert b in others;
    var e0 :| e0 in others && e0.score == t.0.value;
    assert b.score == t.0.value;
  }

  lemma BasesLowest(bases: seq<BaseEntry>, b: BaseEntry)
    requires UniqueIds(bases) && b in bases
    requires forall e :: e in bases ==> e.score >= 0
    ensures b.participationId in LowestTier(bases).1 <==>
              InRest(bases, b) && forall e :: e in bases && InRest(bases, e) ==> b.score <= e.score
  {
    if b.participationId in LowestTier(bases).1 {
      BasesLowestOnly(bases, b);
    }
    if InRest(bases, b) && forall e :: e in bases && InRest(bases, e) ==> b.score <= e.score {
      BasesLowestAll(bases, b);
    }
  }

  /** Every LOWEST ticket has the lowest winning score. */
  lemma BasesLowestScore(bases: seq<BaseEntry>, b: BaseEntry)
    requires UniqueIds(bases) && b in bases
    requires b.participationId in LowestTier(bases).1
    ensures LowestTier(bases).0 == Some(b.score)
  {
    var others := Filter(bases, Others(TopIds(bases), SecondTier(bases).1));
    FilterMembership(bases, Others(TopIds(bases), SecondTier(bases).1));
    MinTierSpec(others);
    var e :| e in others && e.score == LowestTier(bases).0.value && e.participationId == b.participationId;
    assert e == b;
  }

  // ---------------------------------------------------------------------
  // The category rules over the base entries

  ghost predicate TopRule(bases: seq<BaseEntry>, c: Categories) {
    forall b :: b in bases ==> (b.participationId in c.topIds <==> b.isTop)
  }

  ghost predicate SecondRule(bases: seq<BaseEntry>, c: Categories) {
    forall b :: b in bases ==>
      (b.participationId in c.secondIds <==>
         !b.isTop && b.score > 0 && forall e :: e in bases && !e.isTop && e.score > 0 ==> e.score <= b.score)
  }

  ghost predicate Placed(c: Categories, e: BaseEntry) {
    e.participationId in c.topIds || e.participationId in c.secondIds
  }

  ghost predicate LowestRule(bases: seq<BaseEntry>, c: Categories) {
    forall b :: b in bases ==>
      (b.participationId in c.lowestIds <==>
         !Placed(c, b) && forall e :: e in bases && !Placed(c, e) ==> b.score <= e.score)
  }

  lemma CategorizeTop(bases: seq<BaseEntry>)
    requires UniqueIds(bases)
    ensures TopRule(bases, Categorize(bases))
  {
    forall b | b in bases
      ensures b.participationId in TopIds(bases) <==> b.isTop
    {
      BasesTop(bases, b);
    }
  }

  lemma CategorizeSecond(bases: seq<BaseEntry>)
    requires UniqueIds(bases)
    ensures SecondRule(bases, Categorize(bases))
    ensures Categorize(bases).secondIds == {} <==> forall e :: e in bases ==> e.isTop || e.score <= 0
  {
    var c := Categorize(bases);
    SecondTierSpec(bases);
    forall b | b in bases
      ensures b.participationId in SecondTier(bases).1 <==>
                !b.isTop && b.score > 0 && forall e :: e in bases && !e.isTop && e.score > 0 ==> e.score <= b.score
    {
      BasesSecond(bases, b);
    }
    BasesSecondNone(bases);
  }

  lemma CategorizeLowest(bases: seq<BaseEntry>)
    requires UniqueIds(bases) && AllCoherent(bases)
    ensures LowestRule(bases, Categorize(bases))
    ensures forall b :: b in bases && b.participationId in Categorize(bases).lowestIds ==>
              Categorize(bases).lowestScore == Some(b.score)
  {
    forall b | b in bases
      ensures b.participationId in LowestTier(bases).1 <==>
                InRest(bases, b) && forall e :: e in bases && InRest(bases, e) ==> b.score <= e.score
    {
      BasesLowest(bases, b);
    }
    forall b | b in bases && b.participationId in LowestTier(bases).1
      ensures LowestTier(bases).0 == Some(b.score)
    {
      BasesLowestScore(bases, b);
    }
  }

  // ---------------------------------------------------------------------
  // From the base entries to the ranking order

  /** `es` lists `ordered`, a reordering of `bases`, categorised by `c`. */
  ghost predicate RankedFrom(es: seq<RankingEntry>, ordered: seq<BaseEntry>, bases: seq<BaseEntry>, c: Categories) {
    |es| == |ordered| == |bases| && (forall b :: b in ordered <==> b in bases) && AllCoherent(bases) &&
    forall j :: 0 <= j < |es| ==>
      es[j].category == CategoryOf(ordered[j].participationId, c) &&
      es[j].isWinner == (es[j].category != NoCategory) && es[j].score == ordered[j].score &&
      es[j].hitNumbers == ordered[j].hitNumbers && es[j].numbers == ordered[j].numbers
  }

  ghost predicate Disjoint(c: Categories) {
    c.topIds !! c.secondIds && c.topIds !! c.lowestIds && c.secondIds !! c.lowestIds
  }

  lemma RankedTop(es: seq<RankingEntry>, ordered: seq<BaseEntry>, bases: seq<BaseEntry>, c: Categories, i: int)
    requires RankedFrom(es, ordered, bases, c) && TopRule(bases, c)
    requires 0 <= i < |es|
    ensures es[i].category == Top <==> AllHit(es[i])
  {
    assert ordered[i] in bases;
  }

  lemma RankedSecond(es: seq<RankingEntry>, ordered: seq<BaseEntry>, bases: seq<BaseEntry>, c: Categories, i: int)
    requires RankedFrom(es, ordered, bases, c) && Disjoint(c) && TopRule(bases, c) && SecondRule(bases, c)
    requires 0 <= i < |es|
    ensures es[i].category == Second <==>
              !AllHit(es[i]) && es[i].score > 0 &&
              forall j :: 0 <= j < |es| && !AllHit(es[j]) && es[j].score > 0 ==> es[j].score <= es[i].score
  {
    var b := ordered[i];
    assert b in bases;
    var q1 := forall j :: 0 <= j < |es| && !AllHit(es[j]) && es[j].score > 0 ==> es[j].score <= b.score;
    var q2 := forall e :: e in bases && !e.isTop && e.score > 0 ==> e.score <= b.score;
    assert q1 <==> q2 by {
      if q2 {
        forall j | 0 <= j < |es| && !AllHit(es[j]) && es[j].score > 0
          ensures es[j].score <= b.score
        {
          assert ordered[j] in bases;
        }
      }
      if q1 {
        forall e | e in bases && !e.isTop && e.score > 0
          ensures e.score <= b.score
        {
          var j :| 0 <= j < |ordered| && ordered[j] == e;
        }
      }
    }
  }

  /** Neither TOP nor SECOND. */
  ghost predicate Unplaced(e: RankingEntry) {
    e.category == Lowest || e.category == NoCategory
  }

  /** The category rules at entry `i`: TOP is a ticket all of whose
      positions were hit; SECOND is a ticket outside TOP with the highest
      positive score among those; LOWEST is a ticket in neither with the
      lowest score among those, zero included. */
  ghost predicate CategoryRulesAt(es: seq<RankingEntry>, i: int) {
    0 <= i < |es| &&
    (es[i].category == Top <==> AllHit(es[i])) &&
    (es[i].category == Second <==>
       !AllHit(es[i]) && es[i].score > 0 &&
       forall j :: 0 <= j < |es| && !AllHit(es[j]) && es[j].score > 0 ==> es[j].score <= es[i].score) &&
    (es[i].category == Lowest <==>
       Unplaced(es[i]) && forall j :: 0 <= j < |es| && Unplaced(es[j]) ==> es[i].score <= es[j].score)
  }

  lemma RankedLowest(es: seq<RankingEntry>, ordered: seq<BaseEntry>, bases: seq<BaseEntry>, c: Categories, i: int)
    requires RankedFrom(es, ordered, bases, c) && Disjoint(c) && LowestRule(bases, c)
    requires 0 <= i < |es|
    ensures es[i].category == Lowest <==>
              Unplaced(es[i]) && forall j :: 0 <= j < |es| && Unplaced(es[j]) ==> es[i].score <= es[j].score
  {
    var b := ordered[i];
    assert b in bases;
    assert forall j :: 0 <= j < |es| ==> (Unplaced(es[j]) <==> !Placed(c, ordered[j]));
    var q1 := forall j :: 0 <= j < |es| && Unplaced(es[j]) ==> b.score <= es[j].score;
    var q2 := forall e :: e in bases && !Placed(c, e) ==> b.score <= e.score;
    assert q1 <==> q2 by {
      if q2 {
        forall j | 0 <= j < |es| && Unplaced(es[j])
          ensures b.score <= es[j].score
        {
          assert ordered[j] in bases;
        }
      }
      if q1 {
        forall e | e in bases && !Placed(c, e)
          ensures b.score <= e.score
        {
          var j :| 0 <= j < |ordered| && ordered[j] == e;
        }
      }
    }
  }

  lemma RankedSecondEmpty(es: seq<RankingEntry>, ordered: seq<BaseEntry>, bases: seq<BaseEntry>, c: Categories)
    requires RankedFrom(es, ordered, bases, c)
    requires c.secondIds == {} <==> forall e :: e in bases ==> e.isTop || e.score <= 0
    ensures c.secondIds == {} <==> forall j :: 0 <= j < |es| ==> AllHit(es[j]) || es[j].score == 0
  {
    var q1 := forall j :: 0 <= j < |es| ==> AllHit(es[j]) || es[j].score == 0;
    var q2 := forall e :: e in bases ==> e.isTop || e.score <= 0;
    assert q1 <==> q2 by {
      if q2 {
        forall j | 0 <= j < |es|
          ensures AllHit(es[j]) || es[j].score == 0
        {
          assert ordered[j] in bases;
        }
      }
      if q1 {
        forall e | e in bases
          ensures e.isTop || e.score <= 0
        {
          var j :| 0 <= j < |ordered| && ordered[j] == e;
        }
      }
    }
  }

  /** A non-empty set of ids of base entries names some entry. */
  lemma RankedHasId(es: seq<RankingEntry>, ordered: seq<BaseEntry>, bases: seq<BaseEntry>, c: Categories,
                    ids: set<string>)
    requires RankedFrom(es, ordered, bases, c)
    requires ids <= IdsOf(bases) && ids != {}
    ensures exists j :: 0 <= j < |es| && ordered[j].participationId in ids
  {
    var id :| id in ids;
    var b :| b in bases && IdOf(b) == id;
    var j :| 0 <= j < |ordered| && ordered[j] == b;
  }

  lemma RankedAnyWinner(es: seq<RankingEntry>, ordered: seq<BaseEntry>, bases: seq<BaseEntry>, c: Categories)
    requires RankedFrom(es, ordered, bases, c)
    requires c.topIds <= IdsOf(bases) && c.secondIds <= IdsOf(bases) && c.lowestIds <= IdsOf(bases)
    ensures (|c.topIds| > 0 || |c.secondIds| > 0 || |c.lowestIds| > 0) <==>
            exists j :: 0 <= j < |es| && es[j].isWinner
  {
    if c.topIds != {} {
      RankedHasId(es, ordered, bases, c, c.topIds);
    } else if c.secondIds != {} {
      RankedHasId(es, ordered, bases, c, c.secondIds);
    } else if c.lowestIds != {} {
      RankedHasId(es, ordered, bases, c, c.lowestIds);
    }
    if exists j :: 0 <= j < |es| && es[j].isWinner {
      var j :| 0 <= j < |es| && es[j].isWinner;
      var id := ordered[j].participationId;
      assert id in c.topIds || id in c.secondIds || id in c.lowestIds;
    }
  }

  lemma RankedLowestScore(es: seq<RankingEntry>, ordered: seq<BaseEntry>, bases: seq<BaseEntry>, c: Categories)
    requires RankedFrom(es, ordered, bases, c)
    requires Disjoint(c) && c.lowestIds <= IdsOf(bases) && (c.lowestScore.None? <==> c.lowestIds == {})
    requires forall b :: b in bases && b.participationId in c.lowestIds ==> c.lowestScore == Some(b.score)
    ensures c.lowestScore.Some? <==> exists j :: 0 <= j < |es| && es[j].category == Lowest
    ensures forall j :: 0 <= j < |es| && es[j].category == Lowest ==> c.lowestScore == Some(es[j].score)
  {
    if c.lowestScore.Some? {
      RankedHasId(es, ordered, bases, c, c.lowestIds);
      var j :| 0 <= j < |es| && ordered[j].participationId in c.lowestIds;
      assert es[j].category == Lowest;
    }
    forall j | 0 <= j < |es| && es[j].category == Lowest
      ensures c.lowestScore == Some(es[j].score)
    {
      assert ordered[j] in bases;
    }
  }

  lemma {:induction false} DistinctIdsCard(s: seq<BaseEntry>)
    requires DistinctBy(s, IdOf)
    ensures |IdsOf(s)| == |s|
  {
    if s != [] {
      var rest := s[1..];
      assert DistinctBy(rest, IdOf) by {
        forall i, j | 0 <= i < j < |rest|
          ensures IdOf(rest[i]) != IdOf(rest[j])
        {
          assert rest[i] == s[i + 1] && rest[j] == s[j + 1];
        }
      }
      DistinctIdsCard(rest);
      assert IdsOf(s) == {IdOf(s[0])} + IdsOf(rest);
      assert IdOf(s[0]) !in IdsOf(rest) by {
        forall e | e in rest
          ensures IdOf(e) != IdOf(s[0])
        {
          var j :| 0 <= j < |rest| && rest[j] == e;
          assert s[j + 1] == e;
        }
      }
    }
  }

  function IdIn(ids: set<string>): BaseEntry -> bool {
    (e: BaseEntry) => e.participationId in ids
  }

  function HasCategory(k: Category): RankingEntry -> bool {
    (e: RankingEntry) => e.category == k
  }

  /** Under distinct ids, a set of ids of tickets counts as many tickets. */
  lemma IdsFilterCard(bases: seq<BaseEntry>, ids: set<string>)
    requires DistinctBy(bases, IdOf) && ids <= IdsOf(bases)
    ensures |Filter(bases, IdIn(ids))| == |ids|
  {
    var f := Filter(bases, IdIn(ids));
    FilterDistinctBy(bases, IdIn(ids), IdOf);
    DistinctIdsCard(f);
    FilterMembership(bases, IdIn(ids));
    assert IdsOf(f) == ids;
  }

  /** How many entries of the ranking order fall in a category whose ids
      are `ids`. */
  lemma RankedCount(es: seq<RankingEntry>, bases: seq<BaseEntry>, key: BaseEntry -> Key, ids: set<string>, k: Category)
    requires DistinctBy(bases, IdOf) && ids <= IdsOf(bases)
    requires |es| == |SortBy(bases, key)|
    requires forall j :: 0 <= j < |es| ==> (es[j].category == k <==> SortBy(bases, key)[j].participationId in ids)
    ensures |Filter(es, HasCategory(k))| == |ids|
  {
    FilterCongruent(es, HasCategory(k), SortBy(bases, key), IdIn(ids));
    SortByFilter(bases, key, IdIn(ids));
    IdsFilterCard(bases, ids);
  }

  // ---------------------------------------------------------------------
  // Categories, counts, summary and prizes of a run

  /** Over the stages: the entries list the base entries in ranking
      order, categorised by `c`. */
  lemma StageRanked(valid: seq<Participation>, drawsToUse: seq<Draw>, c: Categories, z: Prizes)
    ensures var bases := BaseEntries(valid, drawsToUse);
            var ordered := SortBy(bases, EntryKey);
            RankedFrom(Entries(ordered, c, z), ordered, bases, c)
  {
    var bases := BaseEntries(valid, drawsToUse);
    var ordered := SortBy(bases, EntryKey);
    var es := Entries(ordered, c, z);
    BasesCoherent(valid, drawsToUse);
    OrderedFacts(bases);
  }

  /** How the steps of `Rank` are connected. */
  lemma RankParts(contest: Contest, total: real, valid: seq<Participation>, drawsToUse: seq<Draw>)
    ensures var bases := BaseEntries(valid, drawsToUse);
            var c := Categorize(bases);
            var r := Rank(contest, total, valid, drawsToUse);
            r.entries == Entries(SortBy(bases, EntryKey), c, Allocate(contest, total, c)) &&
            r.summary == Summarize(r.entries, c)
  {
    var r0 := Rank(contest, total, valid, drawsToUse);
  }

  /** The ranking lists its base entries in ranking order, categorised
      by disjoint id sets drawn from those entries. */
  lemma RankRanked(contest: Contest, total: real, valid: seq<Participation>, drawsToUse: seq<Draw>)
    ensures var bases := BaseEntries(valid, drawsToUse);
            var c := Categorize(bases);
            var r := Rank(contest, total, valid, drawsToUse);
            RankedFrom(r.entries, SortBy(bases, EntryKey), bases, c) && Disjoint(c) &&
            c.topIds <= IdsOf(bases) && c.secondIds <= IdsOf(bases) && c.lowestIds <= IdsOf(bases) &&
            (c.lowestScore.None? <==> c.lowestIds == {}) && r.summary == Summarize(r.entries, c)
  {
    var r := Rank(contest, total, valid, drawsToUse);
    var bases := BaseEntries(valid, drawsToUse);
    var c := Categorize(bases);
    RankParts(contest, total, valid, drawsToUse);
    CategorizeSpec(bases);
    StageRanked(valid, drawsToUse, c, Allocate(contest, total, c));
  }

  /** Every entry carries a ranked ticket's data and hits. */
  lemma RankEntryFromTicket(contest: Contest, total: real, valid: seq<Participation>, drawsToUse: seq<Draw>, i: int)
    requires 0 <= i < |Rank(contest, total, valid, drawsToUse).entries|
    ensures exists p :: p in valid && EntryFor(Rank(contest, total, valid, drawsToUse).entries[i], p, drawsToUse)
  {
    var r := Rank(contest, total, valid, drawsToUse);
    var c := Categorize(BaseEntries(valid, drawsToUse));
    RankParts(contest, total, valid, drawsToUse);
    EntryFromTicket(valid, drawsToUse, c, Allocate(contest, total, c), i);
  }

  /** Every ranked ticket has an entry; there are as many entries as
      ranked tickets. */
  lemma RankTicketsHaveEntries(contest: Contest, total: real, valid: seq<Participation>, drawsToUse: seq<Draw>)
    ensures var es := Rank(contest, total, valid, drawsToUse).entries;
            |es| == |valid| &&
            forall p :: p in valid ==> exists i :: 0 <= i < |es| && EntryFor(es[i], p, drawsToUse)
  {
    var r0 := Rank(contest, total, valid, drawsToUse);
    var c := Categorize(BaseEntries(valid, drawsToUse));
    TicketsHaveEntries(valid, drawsToUse, c, Allocate(contest, total, c));
  }

  /** Each entry: score and hit count are the number of its hits, which are
      strictly ascending numbers of the ticket that some draw in use hit on
      or after its creation. */
  lemma RankEntryHits(contest: Contest, total: real, valid: seq<Participation>, drawsToUse: seq<Draw>, i: int)
    requires 0 <= i < |Rank(contest, total, valid, drawsToUse).entries|
    ensures var e := Rank(contest, total, valid, drawsToUse).entries[i];
            e.score == e.hitsCount == |e.hitNumbers| <= |e.numbers| &&
            StrictlyAscending(e.hitNumbers) &&
            forall n :: n in e.hitNumbers <==> n in e.numbers && HitSince(drawsToUse, e.createdAt, n)
  {
    var r := Rank(contest, total, valid, drawsToUse);
    var c := Categorize(BaseEntries(valid, drawsToUse));
    RankParts(contest, total, valid, drawsToUse);
    EntryFromTicket(valid, drawsToUse, c, Allocate(contest, total, c), i);
    var e := r.entries[i];
    var p :| p in valid && EntryFor(e, p, drawsToUse);
    EntryForHits(e, p, drawsToUse);
  }

  /** Entries come by score, highest first, and among equal scores by
      creation, earliest first. */
  lemma RankOrdered(contest: Contest, total: real, valid: seq<Participation>, drawsToUse: seq<Draw>)
    ensures var es := Rank(contest, total, valid, drawsToUse).entries;
            forall i, j :: 0 <= i < j < |es| ==>
              es[i].score > es[j].score || (es[i].score == es[j].score && es[i].createdAt <= es[j].createdAt)
  {
    var bases := BaseEntries(valid, drawsToUse);
    var c := Categorize(bases);
    SortBySorted(bases, EntryKey);
    EntriesOrdered(SortBy(bases, EntryKey), c, Allocate(contest, total, c));
  }

  /** Entries listed from base entries in key order come by score, then by
      creation. */
  lemma EntriesOrdered(ordered: seq<BaseEntry>, c: Categories, z: Prizes)
    requires SortedBy(ordered, EntryKey)
    ensures var es := Entries(ordered, c, z);
            forall i, j :: 0 <= i < j < |es| ==>
              es[i].score > es[j].score || (es[i].score == es[j].score && es[i].createdAt <= es[j].createdAt)
  {
    var es := Entries(ordered, c, z);
    forall i, j | 0 <= i < j < |es|
      ensures es[i].score > es[j].score || (es[i].score == es[j].score && es[i].createdAt <= es[j].createdAt)
    {
      assert KeyLe(EntryKey(ordered[i]), EntryKey(ordered[j]));
    }
  }

  /** The category rules hold at every entry. */
  lemma RankCategoryRules(contest: Contest, total: real, valid: seq<Participation>, drawsToUse: seq<Draw>, i: int)
    requires DistinctBy(valid, PartId)
    requires 0 <= i < |Rank(contest, total, valid, drawsToUse).entries|
    ensures CategoryRulesAt(Rank(contest, total, valid, drawsToUse).entries, i)
  {
    var bases := BaseEntries(valid, drawsToUse);
    var ordered := SortBy(bases, EntryKey);
    var c := Categorize(bases);
    var es := Rank(contest, total, valid, drawsToUse).entries;
    BasesDistinct(valid, drawsToUse);
    BasesCoherent(valid, drawsToUse);
    RankRanked(contest, total, valid, drawsToUse);
    CategorizeTop(bases);
    CategorizeSecond(bases);
    CategorizeLowest(bases);
    RankedTop(es, ordered, bases, c, i);
    RankedSecond(es, ordered, bases, c, i);
    RankedLowest(es, ordered, bases, c, i);
  }

  /** In a ranking order categorised by disjoint id sets of distinct
      entries, each set counts as many entries as it has ids. */
  lemma RankedCounts(es: seq<RankingEntry>, bases: seq<BaseEntry>, c: Categories)
    requires RankedFrom(es, SortBy(bases, EntryKey), bases, c) && Disjoint(c) && DistinctBy(bases, IdOf)
    requires c.topIds <= IdsOf(bases) && c.secondIds <= IdsOf(bases) && c.lowestIds <= IdsOf(bases)
    ensures |Filter(es, HasCategory(Top))| == |c.topIds|
    ensures |Filter(es, HasCategory(Second))| == |c.secondIds|
    ensures |Filter(es, HasCategory(Lowest))| == |c.lowestIds|
  {
    RankedCount(es, bases, EntryKey, c.topIds, Top);
    RankedCount(es, bases, EntryKey, c.secondIds, Second);
    RankedCount(es, bases, EntryKey, c.lowestIds, Lowest);
  }

  /** Each winner count is the number of entries in that category. */
  lemma RankCounts(contest: Contest, total: real, valid: seq<Participation>, drawsToUse: seq<Draw>)
    requires DistinctBy(valid, PartId)
    ensures var r := Rank(contest, total, valid, drawsToUse);
            r.summary.topWinnersCount == |Filter(r.entries, HasCategory(Top))| &&
            r.summary.secondWinnersCount == |Filter(r.entries, HasCategory(Second))| &&
            r.summary.lowestWinnersCount == |Filter(r.entries, HasCategory(Lowest))|
  {
    var r := Rank(contest, total, valid, drawsToUse);
    var bases := BaseEntries(valid, drawsToUse);
    var c := Categorize(bases);
    BasesDistinct(valid, drawsToUse);
    RankRanked(contest, total, valid, drawsToUse);
    RankedCounts(r.entries, bases, c);
  }

  /** SECOND is empty exactly when no ticket outside TOP hit anything. */
  lemma RankSecondEmpty(contest: Contest, total: real, valid: seq<Participation>, drawsToUse: seq<Draw>)
    requires DistinctBy(valid, PartId)
    ensures var r := Rank(contest, total, valid, drawsToUse);
            r.summary.secondWinnersCount == 0 <==>
              forall j :: 0 <= j < |r.entries| ==> AllHit(r.entries[j]) || r.entries[j].score == 0
  {
    var r0 := Rank(contest, total, valid, drawsToUse);
    var bases := BaseEntries(valid, drawsToUse);
    var es := Rank(contest, total, valid, drawsToUse).entries;
    BasesDistinct(valid, drawsToUse);
    RankRanked(contest, total, valid, drawsToUse);
    CategorizeSecond(bases);
    RankedSecondEmpty(es, SortBy(bases, EntryKey), bases, Categorize(bases));
  }

  /** `m` is the highest score of `es`, and 0 when there are none. */
  predicate IsMaxScore(es: seq<RankingEntry>, m: int) {
    (|es| == 0 ==> m == 0) &&
    (|es| > 0 ==> (exists j :: 0 <= j < |es| && es[j].score == m) &&
                  forall j :: 0 <= j < |es| ==> es[j].score <= m)
  }

  /** `maxScore` is the highest score, and 0 with no entries. */
  lemma RankMaxScore(contest: Contest, total: real, valid: seq<Participation>, drawsToUse: seq<Draw>)
    ensures var r := Rank(contest, total, valid, drawsToUse);
            IsMaxScore(r.entries, r.summary.maxScore)
  {
    var r := Rank(contest, total, valid, drawsToUse);
    RankParts(contest, total, valid, drawsToUse);
    SummaryMax(r.entries, Categorize(BaseEntries(valid, drawsToUse)));
  }

  lemma SummaryMax(es: seq<RankingEntry>, c: Categories)
    ensures IsMaxScore(es, Summarize(es, c).maxScore)
  {
    if |es| > 0 {
      var scores := EntryScores(es);
      var k :| 0 <= k < |scores| && scores[k] == MaxOf(scores);
      assert es[k].score == Summarize(es, c).maxScore;
    }
  }

  /** `hasAnyWinner` says whether some entry is a winner. */
  lemma RankAnyWinner(contest: Contest, total: real, valid: seq<Participation>, drawsToUse: seq<Draw>)
    ensures var r := Rank(contest, total, valid, drawsToUse);
            r.summary.hasAnyWinner <==> exists j :: 0 <= j < |r.entries| && r.entries[j].isWinner
  {
    var bases := BaseEntries(valid, drawsToUse);
    var r := Rank(contest, total, valid, drawsToUse);
    RankRanked(contest, total, valid, drawsToUse);
    RankedAnyWinner(r.entries, SortBy(bases, EntryKey), bases, Categorize(bases));
  }

  /** `lowestWinningScore` is there exactly when some entry is LOWEST, and
      is then every LOWEST entry's score. */
  lemma RankLowestScore(contest: Contest, total: real, valid: seq<Participation>, drawsToUse: seq<Draw>)
    requires DistinctBy(valid, PartId)
    ensures var r := Rank(contest, total, valid, drawsToUse);
            r.summary.lowestWinningScore.Some? <==> exists j :: 0 <= j < |r.entries| && r.entries[j].category == Lowest
    ensures var r := Rank(contest, total, valid, drawsToUse);
            forall j :: 0 <= j < |r.entries| && r.entries[j].category == Lowest ==>
              r.summary.lowestWinningScore == Some(r.entries[j].score)
  {
    var bases := BaseEntries(valid, drawsToUse);
    var r := Rank(contest, total, valid, drawsToUse);
    BasesDistinct(valid, drawsToUse);
    BasesCoherent(valid, drawsToUse);
    RankRanked(contest, total, valid, drawsToUse);
    CategorizeLowest(bases);
    RankedLowestScore(r.entries, SortBy(bases, EntryKey), bases, Categorize(bases));
  }

  /** A category's pool: its percentage (or the default) of the total. */
  function CategoryPool(contest: Contest, total: real, k: Category): real {
    match k
    case Top => total * PctOr(contest.firstPlacePct, 65.0) / 100.0
    case Second => total * PctOr(contest.secondPlacePct, 10.0) / 100.0
    case Lowest => total * PctOr(contest.lowestPlacePct, 7.0) / 100.0
    case NoCategory => 0.0
  }

  function WinnersCount(s: RankingSummary, k: Category): nat {
    match k
    case Top => s.topWinnersCount
    case Second => s.secondWinnersCount
    case Lowest => s.lowestWinnersCount
    case NoCategory => 0
  }

  /** An entry's award, from the allocation of its categories. */
  ghost predicate Awarded(e: RankingEntry, s: RankingSummary, contest: Contest, total: real) {
    (e.isWinner <==> e.category != NoCategory) && e.highlightRow == e.isWinner &&
    (e.category != NoCategory ==>
       WinnersCount(s, e.category) > 0 &&
       e.prizeValue * WinnersCount(s, e.category) as real == CategoryPool(contest, total, e.category)) &&
    (e.category == NoCategory ==> e.prizeValue == 0.0) &&
    (e.medal == Some(Gold) <==> e.category == Top) && (e.medal == Some(Silver) <==> e.category == Second) &&
    (e.medal == Some(Bronze) <==> e.category == Lowest) && (e.medal.None? <==> !e.isWinner)
  }

  lemma AwardOf(b: BaseEntry, i: nat, c: Categories, contest: Contest, total: real, es: seq<RankingEntry>)
    requires Disjoint(c)
    ensures Awarded(EntryOf(b, i, c, Allocate(contest, total, c)), Summarize(es, c), contest, total)
  {
    var id := b.participationId;
    if id in c.topIds {
      assert |c.topIds| > 0;
    } else if id in c.secondIds {
      assert |c.secondIds| > 0;
    } else if id in c.lowestIds {
      assert |c.lowestIds| > 0;
    }
  }

  /** An entry's award: a winner's prize times its category's winner count
      is that category's whole pool, a non-winner gets nothing; the row is
      highlighted and carries the category's medal exactly for winners. */
  lemma RankAward(contest: Contest, total: real, valid: seq<Participation>, drawsToUse: seq<Draw>, i: int)
    requires 0 <= i < |Rank(contest, total, valid, drawsToUse).entries|
    ensures var r := Rank(contest, total, valid, drawsToUse);
            Awarded(r.entries[i], r.summary, contest, total)
  {
    var r := Rank(contest, total, valid, drawsToUse);
    var bases := BaseEntries(valid, drawsToUse);
    var ordered := SortBy(bases, EntryKey);
    var c := Categorize(bases);
    RankParts(contest, total, valid, drawsToUse);
    CategorizeSpec(bases);
    assert r.entries[i] == EntryOf(ordered[i], i, c, Allocate(contest, total, c));
    AwardOf(ordered[i], i, c, contest, total, r.entries);
  }

  // ---------------------------------------------------------------------
  // What a run of `calculateRanking` promises

  /** The entries come by score, highest first, then by creation. */
  lemma RankingOrdered(config: RankingConfig)
    ensures var es := CalculateRanking(config).entries;
            forall i, j :: 0 <= i < j < |es| ==>
              es[i].score > es[j].score || (es[i].score == es[j].score && es[i].createdAt <= es[j].createdAt)
  {
    var r := CalculateRanking(config);
    if |config.participations| > 0 {
      RunStages(config);
      RankOrdered(config.contest, config.totalCollected, ValidTickets(config), DrawsInUse(config));
    }
  }

  /** The category rules hold for every entry of a run. */
  lemma RankingCategories(config: RankingConfig, i: int)
    requires DistinctIds(config.participations)
    requires 0 <= i < |CalculateRanking(config).entries|
    ensures CategoryRulesAt(CalculateRanking(config).entries, i)
  {
    var r := CalculateRanking(config);
    RunStages(config);
    RankCategoryRules(config.contest, config.totalCollected, ValidTickets(config), DrawsInUse(config), i);
  }

  /** Every entry is a ticket that was not created after the cutoff,
      carrying its data and its hits. */
  lemma RankingEntriesAreTickets(config: RankingConfig, i: int)
    requires 0 <= i < |CalculateRanking(config).entries|
    ensures exists p :: p in config.participations && EntryFor(CalculateRanking(config).entries[i], p, DrawsInUse(config)) &&
                        !(Cutoff(config).Some? && p.createdAt > Cutoff(config).value)
  {
    var r := CalculateRanking(config);
    var valid, u := ValidTickets(config), DrawsInUse(config);
    RunStages(config);
    RankEntryFromTicket(config.contest, config.totalCollected, valid, u, i);
    var p :| p in valid && EntryFor(r.entries[i], p, u);
    ValidTicket(config, p);
    assert p in config.participations && EntryFor(r.entries[i], p, u) &&
           !(Cutoff(config).Some? && p.createdAt > Cutoff(config).value);
  }

  /** Every ticket not created after the cutoff has an entry, and the
      others are the ones counted as invalid. */
  lemma RankingTicketsAreEntries(config: RankingConfig, p: Participation)
    requires p in config.participations
    ensures var r := CalculateRanking(config);
            !(Cutoff(config).Some? && p.createdAt > Cutoff(config).value) ==>
              exists i :: 0 <= i < |r.entries| && EntryFor(r.entries[i], p, DrawsInUse(config))
    ensures CalculateRanking(config).invalidParticipationsCount == |InvalidTickets(config)|
  {
    var r := CalculateRanking(config);
    var valid, u := ValidTickets(config), DrawsInUse(config);
    RunStages(config);
    ValidSplit(config);
    RankTicketsHaveEntries(config.contest, config.totalCollected, valid, u);
  }

  /** Each entry's score and hit count are the number of its hits, and its
      hits are exactly its numbers that a draw in use hit on or after the
      ticket's creation. */
  lemma RankingHits(config: RankingConfig, i: int)
    requires 0 <= i < |CalculateRanking(config).entries|
    ensures var e := CalculateRanking(config).entries[i];
            e.score == e.hitsCount == |e.hitNumbers| <= |e.numbers| &&
            StrictlyAscending(e.hitNumbers) &&
            forall n :: n in e.hitNumbers <==> n in e.numbers && HitSince(DrawsInUse(config), e.createdAt, n)
  {
    var r := CalculateRanking(config);
    RunStages(config);
    RankEntryHits(config.contest, config.totalCollected, ValidTickets(config), DrawsInUse(config), i);
  }

  /** The winner counts of the summary are the numbers of entries in each
      category; SECOND is empty exactly when no entry outside TOP hit
      anything. */
  lemma RankingCounts(config: RankingConfig)
    requires DistinctIds(config.participations)
    ensures var r := CalculateRanking(config);
            r.summary.topWinnersCount == |Filter(r.entries, HasCategory(Top))| &&
            r.summary.secondWinnersCount == |Filter(r.entries, HasCategory(Second))| &&
            r.summary.lowestWinnersCount == |Filter(r.entries, HasCategory(Lowest))|
    ensures var r := CalculateRanking(config);
            r.summary.secondWinnersCount == 0 <==>
              forall j :: 0 <= j < |r.entries| ==> AllHit(r.entries[j]) || r.entries[j].score == 0
  {
    var r := CalculateRanking(config);
    if |config.participations| > 0 {
      var valid, u := ValidTickets(config), DrawsInUse(config);
      RunStages(config);
      RankCounts(config.contest, config.totalCollected, valid, u);
      RankSecondEmpty(config.contest, config.totalCollected, valid, u);
    }
  }

  /** `maxScore` is the highest score, and 0 with no entries. */
  lemma RankingMaxScore(config: RankingConfig)
    ensures var r := CalculateRanking(config);
            IsMaxScore(r.entries, r.summary.maxScore)
  {
    var r := CalculateRanking(config);
    if |config.participations| > 0 {
      RunStages(config);
      RankMaxScore(config.contest, config.totalCollected, ValidTickets(config), DrawsInUse(config));
    }
  }

  /** `hasAnyWinner` says whether some entry is a winner. */
  lemma RankingAnyWinner(config: RankingConfig)
    ensures var r := CalculateRanking(config);
            r.summary.hasAnyWinner <==> exists j :: 0 <= j < |r.entries| && r.entries[j].isWinner
  {
    var r := CalculateRanking(config);
    if |config.participations| > 0 {
      RunStages(config);
      RankAnyWinner(config.contest, config.totalCollected, ValidTickets(config), DrawsInUse(config));
    }
  }

  /** `lowestWinningScore` is there exactly when some entry is LOWEST, and
      is then every LOWEST entry's score. */
  lemma RankingLowestScore(config: RankingConfig)
    requires DistinctIds(config.participations)
    ensures var r := CalculateRanking(config);
            r.summary.lowestWinningScore.Some? <==> exists j :: 0 <= j < |r.entries| && r.entries[j].category == Lowest
    ensures var r := CalculateRanking(config);
            forall j :: 0 <= j < |r.entries| && r.entries[j].category == Lowest ==>
              r.summary.lowestWinningScore == Some(r.entries[j].score)
  {
    var r := CalculateRanking(config);
    if |config.participations| > 0 {
      RunStages(config);
      RankLowestScore(config.contest, config.totalCollected, ValidTickets(config), DrawsInUse(config));
    }
  }

  /** A winner's prize times its category's winner count is that
      category's pool; a non-winner gets nothing; winners, and only they,
      are highlighted and carry their category's medal. */
  lemma RankingAward(config: RankingConfig, i: int)
    requires 0 <= i < |CalculateRanking(config).entries|
    ensures var r := CalculateRanking(config);
            Awarded(r.entries[i], r.summary, config.contest, config.totalCollected)
  {
    var r := CalculateRanking(config);
    RunStages(config);
    RankAward(config.contest, config.totalCollected, ValidTickets(config), DrawsInUse(config), i);
  }
}
