/** The contest record shared by the ranking engine and the contest helpers.
    Only the fields those read are kept; dates are instants as integers and
    percentages are reals, `None` standing for a null or missing column. */
module Types {
  import opened Wrappers

  datatype ContestStatus = Draft | Active | Finished | Cancelled

  datatype Contest = Contest(
    status: ContestStatus,
    startDate: int,
    endDate: int,
    firstPlacePct: Option<real>,
    secondPlacePct: Option<real>,
    lowestPlacePct: Option<real>)
}
