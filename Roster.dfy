/** Choosing the driver announced on confirmation from `drivers.csv`: rows of
    `(color, company, model, driver_id)` after one header line. The random
    choice is the index `pick` into the data rows, supplied by the caller. */
module Roster {
  import opened Catalog

  datatype Assignment =
    | Assigned(color: string, company: string, model: string, driverId: string)
    | NoDrivers
    | RosterError

  /** `random.choice(drivers)` can only return an index into the data rows. */
  predicate ValidPick(roster: seq<Row>, pick: nat)
  {
    |roster| > 1 ==> pick < |roster| - 1
  }

  /** Skip the header (its absence makes `next` raise), then announce the
      chosen driver, or say that there are no drivers; a chosen row that is
      not four fields wide fails to unpack. */
  function PickDriver(roster: seq<Row>, pick: nat): (a: Assignment)
    requires ValidPick(roster, pick)
    ensures a == NoDrivers <==> |roster| == 1
    ensures a == RosterError <==> |roster| == 0 || (|roster| > 1 && |roster[pick + 1]| != 4)
    ensures a.Assigned? ==> roster[pick + 1] == [a.color, a.company, a.model, a.driverId]
    ensures a.Assigned? ==> exists i :: 1 <= i < |roster| && roster[i] == [a.color, a.company, a.model, a.driverId]
  {
    if roster == [] then RosterError
    else
      var drivers := roster[1..];
      if drivers == [] then NoDrivers
      else
        var selected := drivers[pick];
        if |selected| != 4 then RosterError
        else
          assert selected == [selected[0], selected[1], selected[2], selected[3]];
          Assigned(selected[0], selected[1], selected[2], selected[3])
  }
}
