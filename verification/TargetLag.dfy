/** Target lags of dynamic tables: rendered by the converter, normalised by the parser, compared by
    the resolver. */
module TargetLag {
  import opened Basics
  import opened Strings

  // ---------------------------------------------------------------------------------------------
  // Numbers
  // ---------------------------------------------------------------------------------------------

  predicate Digit(c: char) {
    '0' <= c <= '9'
  }

  function DigitChar(d: nat): char
    requires d < 10
  {
    '0' + d as char
  }

  function Decimal(n: nat): (s: string)
    ensures s != "" && forall c | c in s :: Digit(c)
  {
    if n < 10 then [DigitChar(n)] else Decimal(n / 10) + [DigitChar(n % 10)]
  }

  /** `int(s)`, for plain decimal digits; anything else is an error. */
  function ParseInt(s: string): Option<nat> {
    if s == "" || !Digit(s[|s| - 1]) then None
    else
      var d := (s[|s| - 1] - '0') as nat;
      if |s| == 1 then Some(d)
      else
        var high := ParseInt(s[..|s| - 1]);
        if high.None? then None else Some(high.value * 10 + d)
  }

  lemma {:induction false} ParseDecimal(n: nat)
    ensures ParseInt(Decimal(n)) == Some(n)
  {
    if n >= 10 {
      var s := Decimal(n);
      assert s[..|s| - 1] == Decimal(n / 10);
      ParseDecimal(n / 10);
    }
  }

  /** Exactly the nonempty strings of decimal digits are numbers. */
  lemma {:induction false} NumbersAreDigits(s: string)
    ensures ParseInt(s).Some? <==> s != "" && forall c | c in s :: c in "0123456789"
  {
    if s != "" {
      var high, last := s[..|s| - 1], s[|s| - 1];
      assert s == high + [last];
      assert Digit(last) <==> last in "0123456789";
      NumbersAreDigits(high);
    }
  }

  // ---------------------------------------------------------------------------------------------
  // Units
  // ---------------------------------------------------------------------------------------------

  const UNITS := [("day", 86400), ("hour", 3600), ("minute", 60), ("second", 1)]

  /** `unit_singular_to_plural`. */
  function Plural(unit: string): Option<string> {
    if unit == "second" then Some("seconds")
    else if unit == "minute" then Some("minutes")
    else if unit == "hour" then Some("hours")
    else if unit == "day" then Some("days")
    else None
  }

  /** `unit_plural_to_singular`. */
  function Singular(unit: string): Option<string> {
    if unit == "seconds" then Some("second")
    else if unit == "minutes" then Some("minute")
    else if unit == "hours" then Some("hour")
    else if unit == "days" then Some("day")
    else None
  }

  /** `unit_to_seconds_multiplier`; an unknown unit is an error. */
  function Multiplier(unit: string): Option<nat> {
    if unit == "second" || unit == "seconds" then Some(1)
    else if unit == "minute" || unit == "minutes" then Some(60)
    else if unit == "hour" || unit == "hours" then Some(3600)
    else if unit == "day" || unit == "days" then Some(86400)
    else None
  }

  /** What one and what more of a unit are called, and how many seconds it has. */
  const SPELLINGS :=
    [("second", "seconds", 1), ("minute", "minutes", 60), ("hour", "hours", 3600), ("day", "days", 86400)]

  /** The named units and no others have a number of seconds. */
  lemma UnitsAreSpelled(unit: string, size: nat)
    ensures Multiplier(unit) == Some(size) <==>
      exists i | 0 <= i < 4 :: SPELLINGS[i].2 == size && (unit == SPELLINGS[i].0 || unit == SPELLINGS[i].1)
  {
    assert SPELLINGS[0].2 == 1 && SPELLINGS[1].2 == 60 && SPELLINGS[2].2 == 3600 && SPELLINGS[3].2 == 86400;
  }

  // ---------------------------------------------------------------------------------------------
  // The three parties
  // ---------------------------------------------------------------------------------------------

  /** What SHOW reports. */
  datatype Reported = Downstream | UserDefined(seconds: nat)

  const DOWNSTREAM := "DOWNSTREAM"

  function Text(num: nat, unit: string): string {
    Decimal(num) + " " + unit
  }

  /** The largest unit that divides the seconds. */
  function UnitFor(seconds: nat): (string, nat) {
    if seconds % 86400 == 0 then ("day", 86400)
    else if seconds % 3600 == 0 then ("hour", 3600)
    else if seconds % 60 == 0 then ("minute", 60)
    else ("second", 1)
  }

  /** The unit divides the seconds, and no larger unit does. */
  lemma UnitIsLargest(seconds: nat, unit: string)
    requires Multiplier(unit).Some? && seconds % Multiplier(unit).value == 0
    ensures var (found, size) := UnitFor(seconds);
      Multiplier(found) == Some(size) && seconds % size == 0 && size >= Multiplier(unit).value
  {
  }

  function Render(lag: Reported): string {
    match lag
    case Downstream => DOWNSTREAM
    case UserDefined(seconds) =>
      var unit := UnitFor(seconds);
      var num := seconds / unit.1;
      Text(num, if num == 1 then unit.0 else unit.0 + "s")
  }

  /** `_get_target_lag`. */
  method GetTargetLag(lag: Reported) returns (text: string)
    ensures text == Render(lag)
  {
    if lag.Downstream? {
      return DOWNSTREAM;
    }
    for i := 0 to |UNITS|
      invariant i < |UNITS|
      invariant forall j | 0 <= j < i :: lag.seconds % UNITS[j].1 != 0
    {
      var (unit, size) := UNITS[i];
      assert i == 3 ==> size == 1;
      if lag.seconds % size == 0 {
        assert UNITS[i] == UnitFor(lag.seconds) by {
          assert UNITS[0].1 == 86400 && UNITS[1].1 == 3600 && UNITS[2].1 == 60;
        }
        var num := lag.seconds / size;
        return if num == 1 then Text(num, unit) else Text(num, unit + "s");
      }
    }
    // One second divides everything, so the fallback after the loop is never reached.
    assert false;
  }

  /** `target_lag.partition(" ")`, its parts in the two roles. */
  function Number(lag: string): string {
    Before(lag, ' ')
  }

  function Unit(lag: string): string {
    var n := |Before(lag, ' ')|;
    if n == |lag| then "" else lag[n + 1..]
  }

  /** `normalise_target_lag`; no number is an error. */
  function Normalise(lag: string): Option<string> {
    if Upper(lag) == DOWNSTREAM then Some(DOWNSTREAM)
    else
      var num := ParseInt(Number(lag));
      if num.None? then None
      else
        var unit := Lower(Unit(lag));
        Some(Text(num.value, Fitting(num.value, unit)))
  }

  /** A unit of either number, as the parser writes it for `num`. */
  function Fitting(num: nat, unit: string): string {
    if num > 1 && Plural(unit).Some? then Plural(unit).value
    else if num == 1 && Singular(unit).Some? then Singular(unit).value
    else unit
  }

  /** What a lag of a blueprint means to the resolver. */
  function Meaning(lag: string): Option<Reported> {
    if lag == DOWNSTREAM then Some(Downstream)
    else
      var num, multiplier := ParseInt(Number(lag)), Multiplier(Lower(Unit(lag)));
      if num.None? || multiplier.None? then None else Some(UserDefined(num.value * multiplier.value))
  }

  /** `_compare_target_lag`. */
  function Compare(lag: string, row: Reported): Option<bool> {
    var meaning := Meaning(lag);
    if meaning.None? then None else Some(meaning.value == row)
  }

  // ---------------------------------------------------------------------------------------------
  // Properties
  // ---------------------------------------------------------------------------------------------

  lemma Parts(num: nat, unit: string)
    ensures Number(Text(num, unit)) == Decimal(num) && Unit(Text(num, unit)) == unit
    ensures Upper(Text(num, unit)) != DOWNSTREAM && Text(num, unit) != DOWNSTREAM
    ensures ParseInt(Number(Text(num, unit))) == Some(num)
  {
    var d, text := Decimal(num), Text(num, unit);
    assert Free(d, ' ');
    assert text == d + ([' '] + unit);
    BeforeConcat(d, [' '] + unit, ' ');
    assert Before([' '] + unit, ' ') == "" && d + "" == d;
    assert text[|d| + 1..] == unit;
    assert d[0] in d && text[0] == d[0];
    assert Upper(text)[0] == UpperChar(d[0]);
    assert DOWNSTREAM[0] == 'D';
    ParseDecimal(num);
  }

  function MeaningOf(num: nat, unit: string): Option<Reported> {
    if Multiplier(unit).None? then None else Some(UserDefined(num * Multiplier(unit).value))
  }

  lemma TextMeans(num: nat, unit: string)
    requires Lower(unit) == unit
    ensures Normalise(Text(num, unit)) == Some(Text(num, Fitting(num, unit)))
    ensures Meaning(Text(num, unit)) == MeaningOf(num, unit)
  {
    Parts(num, unit);
  }

  lemma Pluralised(unit: string)
    requires Plural(unit).Some?
    ensures Singular(unit).None? && Singular(Plural(unit).value) == Some(unit)
    ensures Plural(Plural(unit).value).None?
    ensures Multiplier(unit).Some? && Multiplier(Plural(unit).value) == Multiplier(unit)
  {
  }

  lemma Singularised(unit: string)
    requires Singular(unit).Some?
    ensures Plural(unit).None? && Plural(Singular(unit).value) == Some(unit)
    ensures Singular(Singular(unit).value).None?
    ensures Multiplier(unit).Some? && Multiplier(Singular(unit).value) == Multiplier(unit)
  {
  }

  lemma SingularIsLower(unit: string)
    requires Plural(unit).Some?
    ensures Lower(unit) == unit
  {
    LowerOfLower(unit);
  }

  lemma PluralIsLower(unit: string)
    requires Singular(unit).Some?
    ensures Lower(unit) == unit
  {
    LowerOfLower(unit);
  }

  lemma FittingIsStable(num: nat, unit: string)
    requires Lower(unit) == unit
    ensures Lower(Fitting(num, unit)) == Fitting(num, unit)
    ensures Fitting(num, Fitting(num, unit)) == Fitting(num, unit)
    ensures Multiplier(Fitting(num, unit)) == Multiplier(unit)
  {
    if num > 1 && Plural(unit).Some? {
      Pluralised(unit);
      PluralIsLower(Plural(unit).value);
    } else if num == 1 && Singular(unit).Some? {
      Singularised(unit);
      SingularIsLower(Singular(unit).value);
    }
  }

  lemma DownstreamIsUpper()
    ensures Upper(DOWNSTREAM) == DOWNSTREAM
  {
    UpperOfUpper(DOWNSTREAM);
  }

  lemma NumberedMeans(lag: string, num: nat, unit: string)
    requires Upper(lag) != DOWNSTREAM && lag != DOWNSTREAM
    requires ParseInt(Number(lag)) == Some(num) && Lower(Unit(lag)) == unit
    ensures Normalise(lag) == Some(Text(num, Fitting(num, unit)))
    ensures Meaning(lag) == MeaningOf(num, unit)
  {
  }

  /** One of a unit is called by its one name and more by the other; a unit of nothing is left as it is. */
  lemma NormaliseSpells(lag: string, num: nat, i: nat)
    requires Upper(lag) != DOWNSTREAM && ParseInt(Number(lag)) == Some(num)
    requires i < 4 && (Lower(Unit(lag)) == SPELLINGS[i].0 || Lower(Unit(lag)) == SPELLINGS[i].1)
    ensures num == 0 ==> Normalise(lag) == Some(Decimal(num) + " " + Lower(Unit(lag)))
    ensures num == 1 ==> Normalise(lag) == Some(Decimal(num) + " " + SPELLINGS[i].0)
    ensures num > 1 ==> Normalise(lag) == Some(Decimal(num) + " " + SPELLINGS[i].1)
  {
    assert i == 0 || i == 1 || i == 2 || i == 3;
  }

  lemma NormaliseKeepsOtherUnits(lag: string, num: nat)
    requires Upper(lag) != DOWNSTREAM && ParseInt(Number(lag)) == Some(num)
    requires forall i | 0 <= i < 4 :: Lower(Unit(lag)) != SPELLINGS[i].0 && Lower(Unit(lag)) != SPELLINGS[i].1
    ensures Normalise(lag) == Some(Decimal(num) + " " + Lower(Unit(lag)))
  {
    assert SPELLINGS[0].0 == "second" && SPELLINGS[1].0 == "minute";
    assert SPELLINGS[2].0 == "hour" && SPELLINGS[3].0 == "day";
  }

  /** A lag without a blank has a number and an empty unit. */
  lemma LagWithoutUnit(lag: string)
    requires ' ' !in lag
    ensures Number(lag) == lag && Unit(lag) == ""
  {
    assert Free(lag, ' ');
    BeforeConcat(lag, "", ' ');
    assert lag + "" == lag;
  }

  /** What the parser makes of a lag it leaves alone, and it means the same. */
  lemma NormaliseKeepsMeaning(lag: string)
    requires Normalise(lag).Some?
    ensures Normalise(Normalise(lag).value) == Normalise(lag)
    ensures Upper(lag) != DOWNSTREAM ==> Meaning(Normalise(lag).value) == Meaning(lag)
  {
    DownstreamIsUpper();
    if Upper(lag) != DOWNSTREAM {
      var num, unit := ParseInt(Number(lag)).value, Lower(Unit(lag));
      NumberedMeans(lag, num, unit);
      LowerTwice(Unit(lag));
      FittingIsStable(num, unit);
      TextMeans(num, Fitting(num, unit));
    }
  }

  lemma UnitDivides(seconds: nat)
    ensures var unit := UnitFor(seconds);
      && Plural(unit.0).Some? && Plural(unit.0).value == unit.0 + "s"
      && Multiplier(unit.0) == Some(unit.1)
      && (seconds / unit.1) * unit.1 == seconds
  {
  }

  /** For every number of seconds the rendering is left alone by the parser and means that number. */
  lemma RenderingIsStable(seconds: nat)
    ensures Normalise(Render(UserDefined(seconds))) == Some(Render(UserDefined(seconds)))
    ensures Meaning(Render(UserDefined(seconds))) == Some(UserDefined(seconds))
  {
    var unit := UnitFor(seconds);
    var num := seconds / unit.1;
    var name := if num == 1 then unit.0 else unit.0 + "s";
    UnitDivides(seconds);
    Pluralised(unit.0);
    SingularIsLower(unit.0);
    PluralIsLower(Plural(unit.0).value);
    assert Lower(name) == name && Multiplier(name) == Some(unit.1) && Fitting(num, name) == name;
    TextMeans(num, name);
  }

  /** A rendered lag compares equal with exactly the lag it was rendered from. */
  lemma RenderedComparesEqual(lag: Reported, row: Reported)
    ensures Compare(Render(lag), row) == Some(lag == row)
  {
    if lag.UserDefined? {
      RenderingIsStable(lag.seconds);
    }
  }
}
