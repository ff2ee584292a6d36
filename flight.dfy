/** A scheduled flight (one row of the flight table), reduced to the fields
    the matcher reads. */
module Flights {
  import opened Wrappers
  import opened Values
  import opened Timestamps

  datatype Flight = Flight(
    fuuid: string,
    flightIdentity: string,         // the flight number
    scheduledDate: string,          // FLIGHTSCHEDULEDDATE, `%Y/%m/%d`
    direction: string,              // `A` or `D`
    standId: Option<string>,
    actualOnBlock: Option<string>,  // ACTUALONBLOCKDATETIME
    actualOffBlock: Option<string>) // ACTUALOFFBLOCKDATETIME

  predicate IsArrival(f: Flight) {
    f.direction == "A"
  }

  predicate IsDeparture(f: Flight) {
    f.direction == "D"
  }

  /** A flight is never both an arrival and a departure, and a direction
      other than `A` and `D` makes it neither. */
  lemma DirectionsExclusive(f: Flight)
    ensures !(IsArrival(f) && IsDeparture(f))
    ensures f.direction !in {"A", "D"} ==> !IsArrival(f) && !IsDeparture(f)
  {
  }

  /** The field `get_actual_time` reads: on-block for an arrival, off-block
      for every other flight. */
  function ActualTimeField(f: Flight): (field: Option<string>)
    ensures IsArrival(f) ==> field == f.actualOnBlock
    ensures !IsArrival(f) ==> field == f.actualOffBlock
  {
    if IsArrival(f) then f.actualOnBlock else f.actualOffBlock
  }

  /** The actual on-block (arrival) or off-block (otherwise) time, None when
      that field is missing, empty or not of the form `%Y/%m/%d %H:%M`. */
  function GetActualTime(f: Flight): (r: Option<DateTime>)
    ensures !Present(ActualTimeField(f)) ==> r.None?
    ensures Present(ActualTimeField(f)) ==> r == ParseMinuteTime(ActualTimeField(f).value)
    ensures r.Some? ==> ValidDateTime(r.value) && ParseMinuteTime(ActualTimeField(f).value) == r
  {
    var field := ActualTimeField(f);
    if Present(field) then ParseMinuteTime(field.value) else None
  }

  /** The unused field does not matter: an arrival's time ignores its
      off-block field, any other flight's time ignores its on-block field. */
  lemma ActualTimeIgnoresOtherField(f: Flight, onBlock: Option<string>, offBlock: Option<string>)
    ensures IsArrival(f) ==> GetActualTime(f.(actualOffBlock := offBlock)) == GetActualTime(f)
    ensures !IsArrival(f) ==> GetActualTime(f.(actualOnBlock := onBlock)) == GetActualTime(f)
  {
  }

  /** A canonical `YYYY/MM/DD HH:MM` in the field read is the time returned. */
  lemma ActualTimeOfCanonical(f: Flight, when: DateTime)
    requires ValidDateTime(when) && ActualTimeField(f) == Some(FormatMinuteTime(when))
    ensures GetActualTime(f) == Some(when)
  {
    ParseFormatMinuteTime(when);
  }
}
