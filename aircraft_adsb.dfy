/** An ADS-B position report of an aircraft (one row of the ADS-B table),
    reduced to the fields the matcher reads. */
module AircraftReports {
  import opened Wrappers
  import opened Values
  import opened Timestamps

  datatype AircraftAdsb = AircraftAdsb(
    id: string,
    hex: string,
    lo: real,              // longitude
    la: real,              // latitude
    altitude: int,
    groundSpeed: int,
    course: int,
    fn: string,            // first flight number
    fn2: Option<string>,   // second flight number
    te: Option<string>)    // report time, `%Y/%m/%d %H:%M`

  /** A report built from the required fields only: FN2 and TE default to None. */
  function NewAdsb(id: string, hex: string, lo: real, la: real, altitude: int, groundSpeed: int,
                   course: int, fn: string): (a: AircraftAdsb)
    ensures a.fn2.None? && a.te.None?
    ensures a.id == id && a.fn == fn && a.lo == lo && a.la == la
    ensures GetTimestamp(a).None?
  {
    AircraftAdsb(id, hex, lo, la, altitude, groundSpeed, course, fn, None, None)
  }

  /** The report time, None when TE is missing, empty or not of the form
      `%Y/%m/%d %H:%M`. */
  function GetTimestamp(a: AircraftAdsb): (r: Option<DateTime>)
    ensures !Present(a.te) ==> r.None?
    ensures Present(a.te) ==> r == ParseMinuteTime(a.te.value)
    ensures r.Some? ==> ValidDateTime(r.value) && ParseMinuteTime(a.te.value) == r
  {
    if Present(a.te) then ParseMinuteTime(a.te.value) else None
  }

  /** The report's position as (LA, LO), latitude first. */
  function GetPosition(a: AircraftAdsb): (p: (real, real))
    ensures p.0 == a.la && p.1 == a.lo
  {
    (a.la, a.lo)
  }

  /** A canonical `YYYY/MM/DD HH:MM` report time is read as the time it denotes. */
  lemma TimestampOfCanonical(a: AircraftAdsb, when: DateTime)
    requires ValidDateTime(when) && a.te == Some(FormatMinuteTime(when))
    ensures GetTimestamp(a) == Some(when)
  {
    ParseFormatMinuteTime(when);
  }
}
