/** A GPS fix of a ground vehicle (one row of the vehicle GPS table), reduced
    to the fields the matcher and the batch compliance check read. */
module VehicleFixes {
  import opened Wrappers
  import opened Text
  import opened Timestamps

  datatype VehicleGps = VehicleGps(
    locationPk: string,
    locationTime: string,     // LOCATIONTIME, `%Y/%m/%d %H:%M`
    vehicleNo: string,
    vehicleTypeName: string,
    longitude: real,
    latitude: real,
    speed: real)

  /** The fix's time, None when LOCATIONTIME is empty or not of the form
      `%Y/%m/%d %H:%M` (a seconds field included). */
  function GetTimestamp(v: VehicleGps): (r: Option<DateTime>)
    ensures v.locationTime == [] ==> r.None?
    ensures v.locationTime != [] ==> r == ParseMinuteTime(v.locationTime)
    ensures r.Some? ==> ValidDateTime(r.value) && ParseMinuteTime(v.locationTime) == r
  {
    if v.locationTime != [] then ParseMinuteTime(v.locationTime) else None
  }

  /** The fix's position as (latitude, longitude), latitude first. */
  function GetPosition(v: VehicleGps): (p: (real, real))
    ensures p.0 == v.latitude && p.1 == v.longitude
  {
    (v.latitude, v.longitude)
  }

  /** A towing vehicle's type name contains `牵引车` or, upper-cased,
      `TRACT`. */
  predicate IsTowingVehicle(v: VehicleGps) {
    IsTowingTypeName(v.vehicleTypeName)
  }

  predicate IsTowingTypeName(name: string) {
    Contains(name, "牵引车") || Contains(AsciiUpper(name), "TRACT")
  }

  /** The classification ignores ASCII case: two type names that agree once
      upper-cased are classified alike. */
  lemma TowingTypeNameIgnoresCase(a: string, b: string)
    requires AsciiUpper(a) == AsciiUpper(b)
    ensures IsTowingTypeName(a) == IsTowingTypeName(b)
  {
    ContainsUpper(a, "牵引车");
    ContainsUpper(b, "牵引车");
  }

  /** For a pattern without ASCII letters, upper-casing the text neither
      creates nor destroys an occurrence. */
  lemma {:induction false} ContainsUpper(s: string, pat: string)
    requires forall i :: 0 <= i < |pat| ==> !('a' <= pat[i] <= 'z') && !('A' <= pat[i] <= 'Z')
    ensures Contains(AsciiUpper(s), pat) == Contains(s, pat)
  {
    var u := AsciiUpper(s);
    assert (pat <= u) == (pat <= s) by {
      if |pat| <= |s| {
        forall i | 0 <= i < |pat|
          ensures (u[i] == pat[i]) == (s[i] == pat[i])
        {
          assert u[i] == UpperChar(s[i]);
        }
        if pat <= s {
          assert pat == u[..|pat|];
        }
        if pat <= u {
          assert pat == s[..|pat|];
        }
      }
    }
    if s != [] {
      assert u[1..] == AsciiUpper(s[1..]);
      ContainsUpper(s[1..], pat);
    }
  }

  lemma TowingTypeNames()
    ensures IsTowingTypeName("tract")
    ensures IsTowingTypeName("Tractor")
    ensures IsTowingTypeName("牵引车")
  {
    assert AsciiUpper("tract") == "TRACT";
    assert AsciiUpper("Tractor") == "TRACTOR";
    assert "牵引车" <= "牵引车";
  }

  /** A canonical `YYYY/MM/DD HH:MM` fix time is read as the time it denotes. */
  lemma TimestampOfCanonical(v: VehicleGps, when: DateTime)
    requires ValidDateTime(when) && v.locationTime == FormatMinuteTime(when)
    ensures GetTimestamp(v) == Some(when)
  {
    ParseFormatMinuteTime(when);
  }

  /** A fix time with a seconds field is not read, so such a fix never matches. */
  lemma TimestampWithSeconds(v: VehicleGps, when: DateTime, seconds: string)
    requires ValidDateTime(when) && v.locationTime == FormatMinuteTime(when) + [':'] + seconds
    ensures GetTimestamp(v) == None
  {
    SecondsFieldRejected(when, seconds);
  }
}
