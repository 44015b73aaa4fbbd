/**
 * The launch table and its derivation (space.py lines 24-30). The loader's table is
 * a `MissionTable` whose columns are sequences; each step of the derivation adds
 * columns in place, in the order the script assigns them, and the three steps that
 * pandas can reject stop the derivation with an error.
 */
module Missions {
  import opened Wrappers
  import opened Fields

  /** A row as read from the launch file: the columns the dashboard uses. */
  datatype RawMission = RawMission(
    company: string, location: string, datum: string, detail: string,
    statusRocket: string, statusMission: string)

  /** A row after derivation: the kept columns and the seven derived ones. */
  datatype Mission = Mission(
    company: string, location: string, datum: string, detail: string,
    statusRocket: string, statusMission: string,
    date: string, time: string, locationPart: string, country: Option<string>,
    rocketName: string, mission: Option<string>, year: int)

  /** The two-column assignments of lines 27 and 28. */
  datatype SplitColumns = LocationColumns | DetailColumns

  /**
   * Why pandas rejects the derivation: a two-column assignment whose split never
   * produced a second piece (so only one column), or the first row whose date text
   * does not match the format.
   */
  datatype DeriveError = ColumnCountMismatch(columns: SplitColumns) | UnparsedDate(row: nat)

  /** The separator the detail column is split on. */
  const DetailSeparator: char := '|'

  /** Some text of the column holds `sep`. */
  predicate AnyContains(texts: seq<string>, sep: string)
  {
    exists i :: 0 <= i < |texts| && Contains(texts[i], sep)
  }

  /** Some text of the column holds `c`. */
  predicate AnyHolds(texts: seq<string>, c: char)
  {
    exists i :: 0 <= i < |texts| && c in texts[i]
  }

  /** The `Location` column of the raw rows. */
  function Locations(raw: seq<RawMission>): seq<string>
  {
    seq(|raw|, i requires 0 <= i < |raw| => raw[i].location)
  }

  /** The `Detail` column of the raw rows. */
  function Details(raw: seq<RawMission>): seq<string>
  {
    seq(|raw|, i requires 0 <= i < |raw| => raw[i].detail)
  }

  /** Some row's location holds ", ", so the split yields a `Country` column at all; never so for no rows. */
  predicate SomeLocationSplits(raw: seq<RawMission>)
  {
    AnyContains(Locations(raw), LocationSeparator)
  }

  /** Some row's detail holds '|', so the split yields a `Mission` column at all. */
  predicate SomeDetailSplits(raw: seq<RawMission>)
  {
    AnyHolds(Details(raw), DetailSeparator)
  }

  /** The `Date` column of the raw rows. */
  function Dates(raw: seq<RawMission>): seq<string>
  {
    seq(|raw|, i requires 0 <= i < |raw| => DatePart(raw[i].datum))
  }

  /** The `Datum` column of the raw rows. */
  function Datums(raw: seq<RawMission>): seq<string>
  {
    seq(|raw|, i requires 0 <= i < |raw| => raw[i].datum)
  }

  /** The position of the first missing value. */
  function FirstNone<T>(xs: seq<Option<T>>): (r: Option<nat>)
    ensures r.Some? ==> r.value < |xs| && xs[r.value].None?
    ensures r.Some? ==> forall j :: 0 <= j < r.value ==> xs[j].Some?
    ensures r.None? ==> forall j :: 0 <= j < |xs| ==> xs[j].Some?
  {
    if xs == [] then None
    else if xs[0].None? then Some(0)
    else match FirstNone(xs[1..])
      case None => None
      case Some(i) => Some(i + 1)
  }

  /** The first date text that does not parse, where `to_datetime` raises. */
  function FirstUnparsed(dates: seq<string>): (r: Option<nat>)
    ensures r.Some? ==> r.value < |dates| && ParseDate(dates[r.value]).None?
    ensures r.Some? ==> forall j :: 0 <= j < r.value ==> ParseDate(dates[j]).Some?
    ensures r.None? ==> forall j :: 0 <= j < |dates| ==> ParseDate(dates[j]).Some?
  {
    var parsed := seq(|dates|, i requires 0 <= i < |dates| => ParseDate(dates[i]));
    assert forall j :: 0 <= j < |dates| ==> parsed[j] == ParseDate(dates[j]);
    FirstNone(parsed)
  }

  /** One row's derived fields, given its parsed year. */
  function DeriveRow(r: RawMission, year: int): Mission
  {
    var location := SplitLast(r.location, LocationSeparator);
    var detail := SplitFirst(r.detail, DetailSeparator);
    Mission(r.company, r.location, r.datum, r.detail, r.statusRocket, r.statusMission,
            DatePart(r.datum), TimePart(r.datum), location.0, location.1, detail.0, detail.1, year)
  }

  /** A row whose derived fields are those of a raw row is that row's derivation. */
  lemma DeriveRowOf(r: RawMission, m: Mission)
    requires && m.company == r.company && m.location == r.location && m.datum == r.datum
             && m.detail == r.detail && m.statusRocket == r.statusRocket && m.statusMission == r.statusMission
    requires m.date == DatePart(r.datum) && m.time == TimePart(r.datum)
    requires (m.locationPart, m.country) == SplitLast(r.location, LocationSeparator)
    requires (m.rocketName, m.mission) == SplitFirst(r.detail, DetailSeparator)
    ensures m == DeriveRow(r, m.year)
  {
  }

  /**
   * The derivation of the whole table: it fails on the location split, then on the
   * detail split, then on the first unparsable date, and otherwise derives every
   * row with the year of its date.
   */
  function DeriveAll(raw: seq<RawMission>): Result<seq<Mission>, DeriveError>
  {
    if !SomeLocationSplits(raw) then Failure(ColumnCountMismatch(LocationColumns))
    else if !SomeDetailSplits(raw) then Failure(ColumnCountMismatch(DetailColumns))
    else
      var dates := Dates(raw);
      match FirstUnparsed(dates)
      case Some(k) => Failure(UnparsedDate(k))
      case None =>
        Success(seq(|raw|, i requires 0 <= i < |raw| => DeriveRow(raw[i], ParseDate(dates[i]).value.year)))
  }

  /** The derivation fails with exactly the error the first rejecting step reports. */
  lemma DeriveFailure(raw: seq<RawMission>, e: DeriveError)
    requires e == ColumnCountMismatch(LocationColumns) <==> !SomeLocationSplits(raw)
    requires e == ColumnCountMismatch(DetailColumns) <==>
               SomeLocationSplits(raw) && !SomeDetailSplits(raw)
    requires e.UnparsedDate? ==> FirstUnparsed(Dates(raw)) == Some(e.row)
    ensures DeriveAll(raw) == Failure(e)
  {
    match e
    case ColumnCountMismatch(LocationColumns) =>
      assert !SomeLocationSplits(raw);
    case ColumnCountMismatch(DetailColumns) =>
      assert SomeLocationSplits(raw) && !SomeDetailSplits(raw);
    case UnparsedDate(row) =>
      assert SomeLocationSplits(raw) && SomeDetailSplits(raw);
  }

  /** The first date that does not parse is the one `FirstUnparsed` finds. */
  lemma FirstUnparsedAt(dates: seq<string>, k: nat)
    requires k < |dates| && ParseDate(dates[k]).None?
    requires forall j :: 0 <= j < k ==> ParseDate(dates[j]).Some?
    ensures FirstUnparsed(dates) == Some(k)
  {
    var first := FirstUnparsed(dates);
    assert first.Some?;
    assert first.value <= k;
    assert first.value >= k;
  }

  /**
   * The converse of the date failure, row by row: once both splits yield their columns,
   * a row whose date does not parse, with every earlier date parsing, fails the
   * derivation at that row.
   */
  lemma UnparsedDateFails(raw: seq<RawMission>, k: nat)
    requires SomeLocationSplits(raw) && SomeDetailSplits(raw)
    requires k < |raw| && ParseDate(DatePart(raw[k].datum)).None?
    requires forall j :: 0 <= j < k ==> ParseDate(DatePart(raw[j].datum)).Some?
    ensures DeriveAll(raw) == Failure(UnparsedDate(k))
  {
    var dates := Dates(raw);
    assert forall j :: 0 <= j < |raw| ==> dates[j] == DatePart(raw[j].datum);
    FirstUnparsedAt(dates, k);
  }

  /**
   * When the derivation fails and when it succeeds: a table fails as a whole, on the
   * first step pandas rejects, and there is no skipping of single rows. On success
   * every row is derived with the year of its own date.
   */
  lemma DeriveAllSpec(raw: seq<RawMission>)
    ensures (DeriveAll(raw) == Failure(ColumnCountMismatch(LocationColumns)))
              <==> !SomeLocationSplits(raw)
    ensures (DeriveAll(raw) == Failure(ColumnCountMismatch(DetailColumns)))
              <==> SomeLocationSplits(raw) && !SomeDetailSplits(raw)
    ensures forall k: nat :: DeriveAll(raw) == Failure(UnparsedDate(k)) ==>
              && k < |raw| && ParseDate(DatePart(raw[k].datum)).None?
              && forall j :: 0 <= j < k ==> ParseDate(DatePart(raw[j].datum)).Some?
    ensures DeriveAll(raw).Success? <==>
              && SomeLocationSplits(raw) && SomeDetailSplits(raw)
              && forall i :: 0 <= i < |raw| ==> ParseDate(DatePart(raw[i].datum)).Some?
    ensures DeriveAll(raw).Success? ==> raw != [] && |DeriveAll(raw).value| == |raw|
    ensures DeriveAll(raw).Success? ==> forall i :: 0 <= i < |raw| ==>
              DeriveAll(raw).value[i] == DeriveRow(raw[i], ParseDate(DatePart(raw[i].datum)).value.year)
  {
    var dates := Dates(raw);
    assert forall i :: 0 <= i < |raw| ==> dates[i] == DatePart(raw[i].datum);
  }

  /** `f` applied to every cell of a column, as `Series.apply` and the `.str` accessors do. */
  function Map<A, B>(f: A -> B, xs: seq<A>): (r: seq<B>)
    ensures |r| == |xs|
  {
    if xs == [] then [] else [f(xs[0])] + Map(f, xs[1..])
  }

  lemma {:induction false} MapAt<A, B>(f: A -> B, xs: seq<A>, i: nat)
    requires i < |xs|
    ensures Map(f, xs)[i] == f(xs[i])
  {
    if i > 0 {
      MapAt(f, xs[1..], i - 1);
    }
  }

  function LocationPartOf(location: string): string
  {
    SplitLast(location, LocationSeparator).0
  }

  function CountryOf(location: string): Option<string>
  {
    SplitLast(location, LocationSeparator).1
  }

  function RocketNameOf(detail: string): string
  {
    SplitFirst(detail, DetailSeparator).0
  }

  function MissionOf(detail: string): Option<string>
  {
    SplitFirst(detail, DetailSeparator).1
  }

  /** The year of a date that parses; 0 for one that does not, which no derived row holds. */
  function YearOf(date: string): int
  {
    if ParseDate(date).Some? then ParseDate(date).value.year else 0
  }

  /** Line 25: the `Date` column, the first 16 characters of each `Datum`. */
  function DateColumn(datum: seq<string>): seq<string>
  {
    Map(DatePart, datum)
  }

  /** The `Date` column derived from the raw rows' `Datum` cells is the one the whole-table derivation parses. */
  lemma DateColumnOfRows(raw: seq<RawMission>)
    ensures DateColumn(Datums(raw)) == Dates(raw)
  {
    forall i | 0 <= i < |raw|
      ensures DateColumn(Datums(raw))[i] == Dates(raw)[i]
    {
      MapAt(DatePart, Datums(raw), i);
    }
  }

  /** Line 26: the `Time` column, characters 17 to 21 of each `Datum`. */
  function TimeColumn(datum: seq<string>): seq<string>
  {
    Map(TimePart, datum)
  }

  /** Line 27, first column: each location up to its last ", ". */
  function LocationPartColumn(location: seq<string>): seq<string>
  {
    Map(LocationPartOf, location)
  }

  /** Line 27, second column: each location after its last ", ", missing when there is none. */
  function CountryColumn(location: seq<string>): seq<Option<string>>
  {
    Map(CountryOf, location)
  }

  /** Line 28, first column: each detail up to its first '|'. */
  function RocketNameColumn(detail: seq<string>): seq<string>
  {
    Map(RocketNameOf, detail)
  }

  /** Line 28, second column: each detail after its first '|', missing when there is none. */
  function MissionColumn(detail: seq<string>): seq<Option<string>>
  {
    Map(MissionOf, detail)
  }

  /** Line 30: the year of every date, once every date parses. */
  function YearColumn(date: seq<string>): seq<int>
    requires FirstUnparsed(date).None?
  {
    Map(YearOf, date)
  }

  /** The derived rows: each raw row with the derived cells of its position. */
  function Assemble(raw: seq<RawMission>, date: seq<string>, time: seq<string>,
                    locationPart: seq<string>, country: seq<Option<string>>,
                    rocketName: seq<string>, mission: seq<Option<string>>, year: seq<int>): (ms: seq<Mission>)
    requires |date| == |time| == |locationPart| == |country| == |raw|
    requires |rocketName| == |mission| == |year| == |raw|
    ensures |ms| == |raw|
  {
    seq(|raw|, i requires 0 <= i < |raw| =>
      var r := raw[i];
      Mission(r.company, r.location, r.datum, r.detail, r.statusRocket, r.statusMission,
              date[i], time[i], locationPart[i], country[i], rocketName[i], mission[i], year[i]))
  }

  /** Rows assembled from the derivation of every raw row are the whole-table derivation. */
  lemma AssembleIsDerived(raw: seq<RawMission>, date: seq<string>, time: seq<string>,
                          locationPart: seq<string>, country: seq<Option<string>>,
                          rocketName: seq<string>, mission: seq<Option<string>>, year: seq<int>)
    requires |date| == |time| == |locationPart| == |country| == |raw|
    requires |rocketName| == |mission| == |year| == |raw|
    requires SomeLocationSplits(raw) && SomeDetailSplits(raw)
    requires forall i :: 0 <= i < |raw| ==>
               && date[i] == DatePart(raw[i].datum) && time[i] == TimePart(raw[i].datum)
               && (locationPart[i], country[i]) == SplitLast(raw[i].location, LocationSeparator)
               && (rocketName[i], mission[i]) == SplitFirst(raw[i].detail, DetailSeparator)
               && ParseDate(date[i]).Some? && year[i] == ParseDate(date[i]).value.year
    ensures DeriveAll(raw) == Success(Assemble(raw, date, time, locationPart, country, rocketName, mission, year))
  {
    var dates := Dates(raw);
    assert dates == date;
    assert FirstUnparsed(dates) == None;
    var got := DeriveAll(raw).value;
    var ms := Assemble(raw, date, time, locationPart, country, rocketName, mission, year);
    forall i | 0 <= i < |raw|
      ensures ms[i] == got[i]
    {
      DeriveRowOf(raw[i], ms[i]);
    }
    assert ms == got;
  }

  /** The loaded table, one sequence per column; derived columns are added in place. */
  class MissionTable {
    var company: seq<string>
    var location: seq<string>
    var datum: seq<string>
    var detail: seq<string>
    var statusRocket: seq<string>
    var statusMission: seq<string>

    var date: seq<string>
    var time: seq<string>
    var locationPart: seq<string>
    var country: seq<Option<string>>
    var rocketName: seq<string>
    var mission: seq<Option<string>>
    var year: seq<int>

    /** The raw columns have one cell per row. */
    ghost predicate Loaded()
      reads this`company, this`location, this`datum, this`detail, this`statusRocket, this`statusMission
    {
      |company| == |location| == |datum| == |detail| == |statusRocket| == |statusMission|
    }

    /** Every derived column has one cell per row. */
    ghost predicate Derived()
      reads this`company, this`location, this`datum, this`detail, this`statusRocket, this`statusMission,
            this`date, this`time, this`locationPart, this`country, this`rocketName, this`mission, this`year
    {
      && Loaded()
      && |date| == |time| == |locationPart| == |country| == |datum|
      && |rocketName| == |mission| == |year| == |datum|
    }

    /** Every derived cell is its row's derivation, and no step rejected the table. */
    ghost predicate FullyDerived()
      reads this`company, this`location, this`datum, this`detail, this`statusRocket, this`statusMission,
            this`date, this`time, this`locationPart, this`country, this`rocketName, this`mission, this`year
    {
      && Loaded()
      && AnyContains(location, LocationSeparator) && AnyHolds(detail, DetailSeparator)
      && date == DateColumn(datum) && time == TimeColumn(datum)
      && locationPart == LocationPartColumn(location) && country == CountryColumn(location)
      && rocketName == RocketNameColumn(detail) && mission == MissionColumn(detail)
      && FirstUnparsed(date).None? && year == YearColumn(date)
    }

    /** A fully derived table holds exactly the rows the whole-table derivation yields. */
    lemma RecordsAreDerived()
      requires FullyDerived()
      ensures DeriveAll(Raw()) == Success(Records())
    {
      var raw := Raw();
      assert Locations(raw) == location && Details(raw) == detail;
      forall i | 0 <= i < |raw|
        ensures && date[i] == DatePart(raw[i].datum) && time[i] == TimePart(raw[i].datum)
                && (locationPart[i], country[i]) == SplitLast(raw[i].location, LocationSeparator)
                && (rocketName[i], mission[i]) == SplitFirst(raw[i].detail, DetailSeparator)
                && ParseDate(date[i]).Some? && year[i] == ParseDate(date[i]).value.year
      {
        MapAt(DatePart, datum, i);
        MapAt(TimePart, datum, i);
        MapAt(LocationPartOf, location, i);
        MapAt(CountryOf, location, i);
        MapAt(RocketNameOf, detail, i);
        MapAt(MissionOf, detail, i);
        MapAt(YearOf, date, i);
      }
      AssembleIsDerived(raw, date, time, locationPart, country, rocketName, mission, year);
    }

    /** The raw rows the table holds. */
    function Raw(): (raw: seq<RawMission>)
      reads this`company, this`location, this`datum, this`detail, this`statusRocket, this`statusMission
      requires Loaded()
      ensures |raw| == |datum|
    {
      var c, l, d, t, sr, sm := company, location, datum, detail, statusRocket, statusMission;
      seq(|d|, i requires 0 <= i < |d| => RawMission(c[i], l[i], d[i], t[i], sr[i], sm[i]))
    }

    /** The derived rows, read across the columns. */
    function Records(): (ms: seq<Mission>)
      reads this`company, this`location, this`datum, this`detail, this`statusRocket, this`statusMission,
            this`date, this`time, this`locationPart, this`country, this`rocketName, this`mission, this`year
      requires Derived()
      ensures |ms| == |datum|
    {
      Assemble(Raw(), date, time, locationPart, country, rocketName, mission, year)
    }

    /** `read_data()`: the table of the file's rows, with no derived column yet. */
    constructor Load(raw: seq<RawMission>)
      ensures Loaded() && Raw() == raw
      ensures location == Locations(raw) && detail == Details(raw) && datum == Datums(raw)
      ensures date == time == locationPart == rocketName == [] && country == mission == [] && year == []
    {
      company := seq(|raw|, i requires 0 <= i < |raw| => raw[i].company);
      location := Locations(raw);
      datum := Datums(raw);
      detail := Details(raw);
      statusRocket := seq(|raw|, i requires 0 <= i < |raw| => raw[i].statusRocket);
      statusMission := seq(|raw|, i requires 0 <= i < |raw| => raw[i].statusMission);
      date, time, locationPart, rocketName := [], [], [], [];
      country, mission, year := [], [], [];
    }

    /** Lines 25-26: `Date` and `Time` sliced out of `Datum`. */
    method AddDateAndTime()
      requires Loaded()
      modifies this`date, this`time
      ensures date == DateColumn(datum) && time == TimeColumn(datum)
    {
      date := DateColumn(datum);
      time := TimeColumn(datum);
    }

    /**
     * Line 27: `LocationPart` and `Country` from `Location.rsplit(', ', 1)`. When no
     * row has the separator the split yields one column for two names (an empty table
     * yields an empty Series, no column at all), which pandas rejects; the table is
     * then left as it was.
     */
    method SplitLocation() returns (r: Outcome<DeriveError>)
      requires Loaded()
      modifies this`locationPart, this`country
      ensures r.Fail? <==> !AnyContains(location, LocationSeparator)
      ensures r.Fail? ==> r.error == ColumnCountMismatch(LocationColumns)
      ensures r.Fail? ==> locationPart == old(locationPart) && country == old(country)
      ensures r.Pass? ==> locationPart == LocationPartColumn(location) && country == CountryColumn(location)
    {
      if !AnyContains(location, LocationSeparator) {
        return Fail(ColumnCountMismatch(LocationColumns));
      }
      locationPart := LocationPartColumn(location);
      country := CountryColumn(location);
      r := Pass;
    }

    /**
     * Line 28: `RocketName` and `Mission` from `Detail.split('|', 1)`, rejected in the
     * same way when no row has a '|'.
     */
    method SplitDetail() returns (r: Outcome<DeriveError>)
      requires Loaded()
      modifies this`rocketName, this`mission
      ensures r.Fail? <==> !AnyHolds(detail, DetailSeparator)
      ensures r.Fail? ==> r.error == ColumnCountMismatch(DetailColumns)
      ensures r.Fail? ==> rocketName == old(rocketName) && mission == old(mission)
      ensures r.Pass? ==> rocketName == RocketNameColumn(detail) && mission == MissionColumn(detail)
    {
      if !AnyHolds(detail, DetailSeparator) {
        return Fail(ColumnCountMismatch(DetailColumns));
      }
      rocketName := RocketNameColumn(detail);
      mission := MissionColumn(detail);
      r := Pass;
    }

    /**
     * Line 30: `Year` from `to_datetime(Date, format='%a %b %d, %Y')`. One date that
     * does not parse rejects the whole column, reported at its row.
     */
    method AddYear() returns (r: Outcome<DeriveError>)
      requires Loaded() && |date| == |datum|
      modifies this`year
      ensures r.Fail? <==> FirstUnparsed(date).Some?
      ensures r.Fail? ==> r == Fail(UnparsedDate(FirstUnparsed(date).value)) && year == old(year)
      ensures r.Pass? ==> FirstUnparsed(date).None? && year == YearColumn(date)
    {
      var bad := FirstUnparsed(date);
      if bad.Some? {
        return Fail(UnparsedDate(bad.value));
      }
      year := YearColumn(date);
      r := Pass;
    }

    /**
     * Lines 25-30 in order: each assignment adds its columns in place, and the first
     * one pandas rejects stops the derivation with the table's original columns kept.
     */
    method DeriveInPlace() returns (r: Outcome<DeriveError>)
      requires Loaded()
      modifies this`date, this`time, this`locationPart, this`country, this`rocketName, this`mission, this`year
      ensures r == Fail(ColumnCountMismatch(LocationColumns)) <==>
                !AnyContains(location, LocationSeparator)
      ensures r == Fail(ColumnCountMismatch(DetailColumns)) <==>
                AnyContains(location, LocationSeparator) && !AnyHolds(detail, DetailSeparator)
      ensures date == DateColumn(datum) && time == TimeColumn(datum)
      ensures r.Fail? && r.error.UnparsedDate? ==> FirstUnparsed(date) == Some(r.error.row)
      ensures r.Pass? <==>
                && AnyContains(location, LocationSeparator) && AnyHolds(detail, DetailSeparator)
                && FirstUnparsed(date).None?
      ensures r.Pass? ==> FullyDerived()
    {
      AddDateAndTime();
      var located := SplitLocation();
      if located.Fail? {
        return located;
      }
      var detailed := SplitDetail();
      if detailed.Fail? {
        return detailed;
      }
      r := AddYear();
    }
  }

  /**
   * Lines 24-30 as the script runs them: load, then add the derived columns one
   * assignment at a time. The outcome is the whole-table derivation `DeriveAll`.
   */
  method Derive(raw: seq<RawMission>) returns (r: Result<seq<Mission>, DeriveError>)
    ensures r == DeriveAll(raw)
  {
    var t := new MissionTable.Load(raw);
    assert t.location == Locations(raw) && t.detail == Details(raw);
    var derived := t.DeriveInPlace();
    DateColumnOfRows(raw);
    if derived.Fail? {
      DeriveFailure(raw, derived.error);
      return Failure(derived.error);
    }
    assert t.Raw() == raw;
    t.RecordsAreDerived();
    r := Success(t.Records());
  }
}
