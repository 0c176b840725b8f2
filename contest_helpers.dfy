/** Contest eligibility and the phase shown to users
    (frontend/src/utils/contestHelpers.ts). The current instant `now` is a
    parameter; dates are instants as integers. */
module ContestHelpers {
  import Types

  /** The `phase` values of `getContestState`. */
  datatype Phase = Finished | Inactive | Upcoming | AwaitingResult | Ongoing | Accepting

  /** The object `getContestState` returns; `labelText` is its `label`. */
  datatype ContestState = ContestState(phase: Phase, labelText: string, acceptsParticipations: bool, message: string)

  /** `canAcceptParticipations`: an active contest whose participation
      window contains `now`. `hasDraws` is accepted and ignored. */
  function CanAcceptParticipations(contest: Types.Contest, now: int, hasDraws: bool): (r: bool)
    ensures r ==> contest.status == Types.Active && contest.startDate <= now <= contest.endDate
  {
    if contest.status != Types.Active then false
    else if now < contest.startDate then false
    else if contest.endDate < now then false
    else true
  }

  /** `getContestState`: participations are accepted exactly in the two
      open phases, and only a finished contest is shown as finished. */
  function GetContestState(contest: Types.Contest, now: int, hasDraws: bool): (r: ContestState)
    ensures r.acceptsParticipations <==> r.phase == Ongoing || r.phase == Accepting
    ensures r.phase == Finished <==> contest.status == Types.Finished
  {
    if contest.status == Types.Finished then
      ContestState(Finished, "Finalizado", false, "Este concurso já foi finalizado")
    else if contest.status != Types.Active then
      ContestState(Inactive, if contest.status == Types.Draft then "Rascunho" else "Cancelado", false,
                   "Este concurso não está ativo")
    else if now < contest.startDate then
      ContestState(Upcoming, "Em breve", false, "Este concurso ainda não começou")
    else if contest.endDate < now then
      ContestState(AwaitingResult, "Aguardando Resultado", false,
                   "As inscrições foram encerradas. Aguardando resultado do sorteio.")
    else if hasDraws then
      ContestState(Ongoing, "Em Andamento", true, "Concurso em andamento. Sorteios já iniciados.")
    else
      ContestState(Accepting, "Aceitando Participações", true, "Você pode participar deste concurso")
  }

  /** Only an active contest accepts participations, and an active one does
      exactly while `now` lies in its window, both ends included; draws do
      not matter. */
  lemma CanAcceptSpec(contest: Types.Contest, now: int, hasDraws: bool)
    ensures contest.status != Types.Active ==> !CanAcceptParticipations(contest, now, hasDraws)
    ensures contest.status == Types.Active ==>
              (CanAcceptParticipations(contest, now, hasDraws) <==> contest.startDate <= now <= contest.endDate)
    ensures CanAcceptParticipations(contest, now, hasDraws) == CanAcceptParticipations(contest, now, !hasDraws)
  {
  }

  /** A contest that is not active is `finished` when its status says so
      and `inactive` otherwise, labelled by its status; neither accepts
      participations. */
  lemma NotActiveStates(contest: Types.Contest, now: int, hasDraws: bool)
    requires contest.status != Types.Active
    ensures var s := GetContestState(contest, now, hasDraws);
            !s.acceptsParticipations &&
            (s.phase == Finished <==> contest.status == Types.Finished) &&
            (contest.status == Types.Finished ==> s.labelText == "Finalizado") &&
            (contest.status == Types.Draft ==> s.phase == Inactive && s.labelText == "Rascunho") &&
            (contest.status == Types.Cancelled ==> s.phase == Inactive && s.labelText == "Cancelado")
  {
  }

  /** The phase of an active contest: before its window it is `upcoming`,
      after it `awaiting_result`, and inside it `ongoing` with draws and
      `accepting` without. */
  lemma ActivePhases(contest: Types.Contest, now: int, hasDraws: bool)
    requires contest.status == Types.Active
    ensures var p := GetContestState(contest, now, hasDraws).phase;
            (p == Upcoming <==> now < contest.startDate) &&
            (p == AwaitingResult <==> contest.startDate <= now && contest.endDate < now) &&
            (p == Ongoing <==> contest.startDate <= now <= contest.endDate && hasDraws) &&
            (p == Accepting <==> contest.startDate <= now <= contest.endDate && !hasDraws)
  {
    if now < contest.startDate {
    } else if contest.endDate < now {
    } else if hasDraws {
    } else {
    }
  }

  /** The two helpers agree: the state accepts participations exactly when
      `canAcceptParticipations` holds for the same contest and instant. */
  lemma StateAgrees(contest: Types.Contest, now: int, hasDraws: bool)
    ensures GetContestState(contest, now, hasDraws).acceptsParticipations
         == CanAcceptParticipations(contest, now, hasDraws)
  {
    if contest.status != Types.Active {
      NotActiveStates(contest, now, hasDraws);
    } else {
      ActivePhases(contest, now, hasDraws);
    }
  }

  /** The order in which an active contest goes through its phases. */
  function PhaseRank(p: Phase): nat {
    match p
    case Upcoming => 0
    case Ongoing => 1
    case Accepting => 1
    case AwaitingResult => 2
    case Finished => 3
    case Inactive => 3
  }

  /** As time passes an active contest never returns to an earlier phase. */
  lemma PhasesAdvance(contest: Types.Contest, now: int, later: int, hasDraws: bool)
    requires contest.status == Types.Active && now <= later
    ensures PhaseRank(GetContestState(contest, now, hasDraws).phase)
         <= PhaseRank(GetContestState(contest, later, hasDraws).phase)
  {
    ActivePhases(contest, now, hasDraws);
    ActivePhases(contest, later, hasDraws);
  }
}
