/**
 * The service calendar of a schedule stop pair (one timetable edge between
 * two stops on a trip): the dates it runs on and the validations that keep
 * the calendar consistent.
 *
 * Dates are Julian day numbers; day 0 of the count is a Monday, so the ISO
 * weekday (Monday = 1 ... Sunday = 7) is the day number mod 7, plus one.
 */
module ScheduleStopPairs {
  import opened Wrappers
  import opened Seqs

  type Date = int

  /** Date#cwday. */
  function Cwday(d: Date): (w: int)
    ensures 1 <= w <= 7
  {
    d % 7 + 1
  }

  const NilComparison := "comparison of Date with nil failed"

  /**
   * Comparable#between?(lo, hi): compares with lo first and with hi only when
   * x is not below lo; comparing with a nil bound raises.
   */
  function Between(x: Date, lo: Option<Date>, hi: Option<Date>): (r: Result<bool, string>)
    ensures r == Success(true) <==> lo.Some? && hi.Some? && lo.value <= x <= hi.value
    ensures r.Failure? <==> lo.None? || (x >= lo.value && hi.None?)
  {
    if lo.None? then Failure(NilComparison)
    else if x < lo.value then Success(false)
    else if hi.None? then Failure(NilComparison)
    else Success(x <= hi.value)
  }

  datatype ServiceCalendar = ServiceCalendar(
    start: Option<Date>,
    end: Option<Date>,
    daysOfWeek: seq<bool>,
    added: seq<Date>,
    except: seq<Date>)

  /** service_days_of_week[cwday - 1] == true; an index past the end reads nil. */
  predicate RunsOnWeekday(daysOfWeek: seq<bool>, d: Date) {
    Cwday(d) - 1 < |daysOfWeek| && daysOfWeek[Cwday(d) - 1]
  }

  /**
   * service_on_date?: within the range, on a flagged weekday or an added
   * date, and not an except date. A missing bound that is reached raises.
   */
  function InService(c: ServiceCalendar, d: Date): (r: Result<bool, string>)
    ensures r == Success(true) <==>
              c.start.Some? && c.end.Some? && c.start.value <= d <= c.end.value
              && (RunsOnWeekday(c.daysOfWeek, d) || d in c.added)
              && d !in c.except
    ensures r.Failure? <==> c.start.None? || (d >= c.start.value && c.end.None?)
  {
    match Between(d, c.start, c.end)
    case Failure(e) => Failure(e)
    case Success(inRange) =>
      Success(inRange && (RunsOnWeekday(c.daysOfWeek, d) || d in c.added) && d !in c.except)
  }

  /** An except date is never in service, whatever the weekdays and added dates say. */
  lemma ExceptDateNotInService(c: ServiceCalendar, d: Date)
    requires d in c.except
    ensures InService(c, d) != Success(true)
  {
  }

  /** Array#min. */
  function MinOf(s: seq<Date>): (r: Option<Date>)
    ensures r.None? <==> s == []
    ensures r.Some? ==> r.value in s && forall x :: x in s ==> r.value <= x
  {
    if s == [] then None
    else
      assert forall x :: x in s ==> x == s[0] || x in s[1..];
      match MinOf(s[1..])
      case None => Some(s[0])
      case Some(m) => Some(if s[0] <= m then s[0] else m)
  }

  /** Array#max. */
  function MaxOf(s: seq<Date>): (r: Option<Date>)
    ensures r.None? <==> s == []
    ensures r.Some? ==> r.value in s && forall x :: x in s ==> x <= r.value
  {
    if s == [] then None
    else
      assert forall x :: x in s ==> x == s[0] || x in s[1..];
      match MaxOf(s[1..])
      case None => Some(s[0])
      case Some(m) => Some(if s[0] >= m then s[0] else m)
  }

  /**
   * set_service_range: a missing start becomes the earliest except or added
   * date, a missing end the latest; a present bound is kept, and nothing
   * else changes.
   */
  function WithServiceRange(c: ServiceCalendar): (r: ServiceCalendar)
    ensures r.daysOfWeek == c.daysOfWeek && r.added == c.added && r.except == c.except
    ensures c.start.Some? ==> r.start == c.start
    ensures c.end.Some? ==> r.end == c.end
    ensures r.start.None? <==> c.start.None? && c.except == [] && c.added == []
    ensures r.end.None? <==> c.end.None? && c.except == [] && c.added == []
    ensures c.start.None? && r.start.Some? ==>
              (r.start.value in c.except || r.start.value in c.added)
              && forall x :: x in c.except + c.added ==> r.start.value <= x
    ensures c.end.None? && r.end.Some? ==>
              (r.end.value in c.except || r.end.value in c.added)
              && forall x :: x in c.except + c.added ==> x <= r.end.value
  {
    var dates := c.except + c.added;
    c.(start := if c.start.Some? then c.start else MinOf(dates),
       end := if c.end.Some? then c.end else MaxOf(dates))
  }

  datatype ValidationError = ValidationError(attribute: string, message: string)

  /** validate_service_range. */
  function RangeErrors(c: ServiceCalendar): (r: seq<ValidationError>)
    ensures r == [] <==> c.start.Some? && c.end.Some? && c.start.value <= c.end.value
  {
    (if c.start.None? then [ValidationError("service_start_date", "service_start_date required")] else [])
    + (if c.end.None? then [ValidationError("service_end_date", "service_end_date required")] else [])
    + (if c.start.Some? && c.end.Some? && c.start.value > c.end.value
       then [ValidationError("service_start_date", "service_start_date begins after service_end_date")]
       else [])
  }

  /** dates.reject { |x| x.between?(lo, hi) }, which raises at the first date that reaches a nil bound. */
  function OutsideRange(dates: seq<Date>, lo: Option<Date>, hi: Option<Date>): (r: Result<seq<Date>, string>)
    ensures r.Failure? <==> exists x :: x in dates && Between(x, lo, hi).Failure?
    ensures r.Success? ==> forall x :: x in r.value <==> x in dates && Between(x, lo, hi) == Success(false)
  {
    if dates == [] then Success([])
    else match Between(dates[0], lo, hi)
      case Failure(e) => Failure(e)
      case Success(inside) =>
        match OutsideRange(dates[1..], lo, hi)
        case Failure(e) => Failure(e)
        case Success(rest) => Success(if inside then rest else [dates[0]] + rest)
  }

  /** validate_service_exceptions: added dates are checked first, then except dates. */
  function ExceptionErrors(c: ServiceCalendar): (r: Result<seq<ValidationError>, string>)
  {
    match OutsideRange(c.added, c.start, c.end)
    case Failure(e) => Failure(e)
    case Success(badAdded) =>
      match OutsideRange(c.except, c.start, c.end)
      case Failure(e) => Failure(e)
      case Success(badExcept) =>
        Success(Flag(badAdded, AddedOutOfRange) + Flag(badExcept, ExceptOutOfRange))
  }

  const AddedOutOfRange := ValidationError("service_added_dates",
                                           "service_added_dates must be within service_start_date, service_end_date range")
  const ExceptOutOfRange := ValidationError("service_except_dates",
                                            "service_except_dates must be within service_start_date, service_end_date range")

  /** One error when some date was rejected, none otherwise. */
  function Flag(bad: seq<Date>, e: ValidationError): (r: seq<ValidationError>)
    ensures r == [] <==> bad == []
  {
    if bad != [] then [e] else []
  }

  /** The reject leaves nothing exactly when every date is within a present range. */
  lemma OutsideRangeEmpty(dates: seq<Date>, lo: Option<Date>, hi: Option<Date>)
    ensures OutsideRange(dates, lo, hi) == Success([]) <==>
              forall x :: x in dates ==> Between(x, lo, hi) == Success(true)
  {
    var r := OutsideRange(dates, lo, hi);
    if r.Success? && r.value != [] {
      assert r.value[0] in r.value;
    }
  }

  predicate WithinRange(x: Date, c: ServiceCalendar) {
    c.start.Some? && c.end.Some? && c.start.value <= x <= c.end.value
  }

  lemma ExceptionErrorsParts(c: ServiceCalendar)
    ensures ExceptionErrors(c) == Success([]) <==>
              OutsideRange(c.added, c.start, c.end) == Success([]) && OutsideRange(c.except, c.start, c.end) == Success([])
  {
    var a, e := OutsideRange(c.added, c.start, c.end), OutsideRange(c.except, c.start, c.end);
    if a.Success? && e.Success? {
      assert ExceptionErrors(c) == Success(Flag(a.value, AddedOutOfRange) + Flag(e.value, ExceptOutOfRange));
    }
  }

  /** The reject of one list leaves nothing exactly when each of its dates is within a present range. */
  lemma OutsideRangeWithin(dates: seq<Date>, c: ServiceCalendar)
    ensures OutsideRange(dates, c.start, c.end) == Success([]) <==> forall x :: x in dates ==> WithinRange(x, c)
  {
    OutsideRangeEmpty(dates, c.start, c.end);
  }

  lemma WithinConcat(a: seq<Date>, b: seq<Date>, c: ServiceCalendar)
    ensures (forall x :: x in a + b ==> WithinRange(x, c)) <==>
              (forall x :: x in a ==> WithinRange(x, c)) && (forall x :: x in b ==> WithinRange(x, c))
  {
    if forall x :: x in a + b ==> WithinRange(x, c) {
      forall x | x in a ensures WithinRange(x, c) {
        assert x in a + b;
      }
      forall x | x in b ensures WithinRange(x, c) {
        assert x in a + b;
      }
    }
  }

  /**
   * validate_service_exceptions reports nothing exactly when every added and
   * except date lies within a present range.
   */
  lemma ExceptionErrorsNone(c: ServiceCalendar)
    ensures ExceptionErrors(c) == Success([]) <==> forall x :: x in c.added + c.except ==> WithinRange(x, c)
  {
    ExceptionErrorsParts(c);
    OutsideRangeWithin(c.added, c);
    OutsideRangeWithin(c.except, c);
    WithinConcat(c.added, c.except, c);
  }

  /** validate_service_exceptions raises only when some date reaches a missing bound. */
  lemma ExceptionErrorsRaise(c: ServiceCalendar)
    ensures ExceptionErrors(c).Failure? <==>
              exists x :: x in c.added + c.except && Between(x, c.start, c.end).Failure?
  {
    var a, e := OutsideRange(c.added, c.start, c.end), OutsideRange(c.except, c.start, c.end);
    assert ExceptionErrors(c).Failure? <==> a.Failure? || e.Failure?;
    assert forall x :: x in c.added + c.except <==> x in c.added || x in c.except;
  }

  /**
   * With no preset range and at least one except or added date, the range
   * set_service_range derives passes both date validations.
   */
  lemma DerivedRangeValidates(c: ServiceCalendar)
    requires c.start.None? && c.end.None?
    requires c.except + c.added != []
    ensures RangeErrors(WithServiceRange(c)) == []
    ensures ExceptionErrors(WithServiceRange(c)) == Success([])
  {
    var r := WithServiceRange(c);
    var dates := c.except + c.added;
    assert dates[0] in dates;
    assert r.start.value <= dates[0] <= r.end.value;
    forall x | x in r.added + r.except
      ensures WithinRange(x, r)
    {
      assert x in dates;
    }
    ExceptionErrorsNone(r);
  }

  /**
   * [[:space:]] on a Unicode string: the characters with the Unicode
   * White_Space property (tab to carriage return, space, next line, no-break
   * space, ogham space mark, the en quad to hair space block, line and
   * paragraph separators, narrow no-break space, medium mathematical space
   * and ideographic space).
   */
  predicate IsSpace(c: char) {
    var n := c as int;
    (9 <= n <= 13) || n == 0x20 || n == 0x85 || n == 0xA0 || n == 0x1680
    || (0x2000 <= n <= 0x200A) || n == 0x2028 || n == 0x2029 || n == 0x202F || n == 0x205F || n == 0x3000
  }

  /** String#blank?: nil, empty or only white space. */
  predicate Blank(s: Option<string>) {
    s.None? || forall i :: 0 <= i < |s.value| ==> IsSpace(s.value[i])
  }

  class ScheduleStopPair {
    var origin: Option<nat>
    var destination: Option<nat>
    var route: Option<nat>
    var trip: Option<string>
    var serviceStartDate: Option<Date>
    var serviceEndDate: Option<Date>
    var serviceDaysOfWeek: seq<bool>
    var serviceAddedDates: seq<Date>
    var serviceExceptDates: seq<Date>

    function Calendar(): ServiceCalendar
      reads this
    {
      ServiceCalendar(serviceStartDate, serviceEndDate, serviceDaysOfWeek, serviceAddedDates, serviceExceptDates)
    }

    /** A new pair: no range, no weekdays, no added or except dates (the column defaults). */
    constructor (origin: Option<nat>, destination: Option<nat>, route: Option<nat>, trip: Option<string>)
      ensures this.origin == origin && this.destination == destination && this.route == route && this.trip == trip
      ensures Calendar() == ServiceCalendar(None, None, [], [], [])
    {
      this.origin := origin;
      this.destination := destination;
      this.route := route;
      this.trip := trip;
      serviceStartDate := None;
      serviceEndDate := None;
      serviceDaysOfWeek := [];
      serviceAddedDates := [];
      serviceExceptDates := [];
    }

    /** service_except_dates=: stores the dates without repeats, first occurrences kept. */
    method SetServiceExceptDates(dates: seq<Date>)
      modifies this
      ensures serviceExceptDates == Dedup(dates)
      ensures NoDuplicates(serviceExceptDates) && forall x :: x in serviceExceptDates <==> x in dates
      ensures Calendar() == old(Calendar()).(except := serviceExceptDates)
      ensures origin == old(origin) && destination == old(destination) && route == old(route) && trip == old(trip)
    {
      serviceExceptDates := Dedup(dates);
    }

    /** service_added_dates=: stores the dates without repeats, first occurrences kept. */
    method SetServiceAddedDates(dates: seq<Date>)
      modifies this
      ensures serviceAddedDates == Dedup(dates)
      ensures NoDuplicates(serviceAddedDates) && forall x :: x in serviceAddedDates <==> x in dates
      ensures Calendar() == old(Calendar()).(added := serviceAddedDates)
      ensures origin == old(origin) && destination == old(destination) && route == old(route) && trip == old(trip)
    {
      serviceAddedDates := Dedup(dates);
    }

    /** set_service_range, the before_validation hook. */
    method SetServiceRange()
      modifies this
      ensures Calendar() == WithServiceRange(old(Calendar()))
      ensures origin == old(origin) && destination == old(destination) && route == old(route) && trip == old(trip)
    {
      var dates := serviceExceptDates + serviceAddedDates;
      if serviceStartDate.None? {
        serviceStartDate := MinOf(dates);
      }
      if serviceEndDate.None? {
        serviceEndDate := MaxOf(dates);
      }
    }

    /** The presence validations of origin, destination, route and trip. */
    function PresenceErrors(): (r: seq<ValidationError>)
      reads this
      ensures r == [] <==> origin.Some? && destination.Some? && route.Some? && !Blank(trip)
    {
      (if origin.None? then [ValidationError("origin", "can't be blank")] else [])
      + (if destination.None? then [ValidationError("destination", "can't be blank")] else [])
      + (if route.None? then [ValidationError("route", "can't be blank")] else [])
      + (if Blank(trip) then [ValidationError("trip", "can't be blank")] else [])
    }

    /** All validations, in declaration order; a raise inside one aborts them. */
    function Errors(): Result<seq<ValidationError>, string>
      reads this
    {
      match ExceptionErrors(Calendar())
      case Failure(e) => Failure(e)
      case Success(dateErrors) => Success(PresenceErrors() + RangeErrors(Calendar()) + dateErrors)
    }

    /** valid?: the before_validation hook, then every validation. */
    method Validate() returns (r: Result<seq<ValidationError>, string>)
      modifies this
      ensures Calendar() == WithServiceRange(old(Calendar()))
      ensures origin == old(origin) && destination == old(destination) && route == old(route) && trip == old(trip)
      ensures r == Errors()
    {
      SetServiceRange();
      r := Errors();
    }
  }

  /** A pair without origin, destination, route or a non-blank trip is invalid. */
  lemma MissingRelationInvalid(p: ScheduleStopPair)
    requires p.origin.None? || p.destination.None? || p.route.None? || Blank(p.trip)
    ensures p.Errors().Success? ==> p.Errors().value != []
  {
    assert p.PresenceErrors() != [];
  }

  /**
   * A complete pair with no preset range and at least one except or added
   * date is valid once its range is derived.
   */
  lemma DerivedRangePairValid(p: ScheduleStopPair)
    requires p.origin.Some? && p.destination.Some? && p.route.Some? && !Blank(p.trip)
    requires p.Calendar() == WithServiceRange(p.Calendar().(start := None, end := None))
    requires p.serviceExceptDates + p.serviceAddedDates != []
    ensures p.Errors() == Success([])
  {
    var c := p.Calendar().(start := None, end := None);
    DerivedRangeValidates(c);
  }
}
