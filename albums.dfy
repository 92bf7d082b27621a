/**
 * The album field rules: the year and month pick lists, the fixed categories, and the
 * checks of the album form's fields. The current year is a parameter.
 */
module Albums {
  import opened Wrappers
  import opened Strings

  const FIRST_YEAR: int := 1968

  const CATEGORIES: seq<string> := ["Akce oddílu", "Tábory", "Svojsíkovy závody", "Roveři", "Tábořiště", "Oddílové hry", "Klubovny"]

  /** `s` in reverse order. */
  function Reverse<T>(s: seq<T>): (r: seq<T>)
    ensures |r| == |s|
    ensures forall i :: 0 <= i < |s| ==> r[i] == s[|s| - 1 - i]
  {
    if s == [] then [] else Reverse(s[1..]) + [s[0]]
  }

  /**
   * `years`: the ascending run from 1968 to the current year, reversed. The array
   * length must not be negative, so the current year is at least 1967.
   */
  function Years(currentYear: int): (r: seq<int>)
    requires currentYear >= FIRST_YEAR - 1
    ensures |r| == currentYear - FIRST_YEAR + 1
    ensures forall i :: 0 <= i < |r| ==> r[i] == currentYear - i
  {
    Reverse(seq(currentYear - FIRST_YEAR + 1, i => FIRST_YEAR + i))
  }

  /** `months`: 1 to 12, reversed. */
  function Months(): (r: seq<int>)
    ensures |r| == 12
    ensures forall i :: 0 <= i < 12 ==> r[i] == 12 - i
  {
    Reverse(seq(12, i => i + 1))
  }

  /** The year list is strictly descending and holds exactly the years from 1968 to the current one. */
  lemma YearsAreTheRange(currentYear: int, y: int)
    requires currentYear >= FIRST_YEAR - 1
    ensures forall i, k :: 0 <= i < k < |Years(currentYear)| ==> Years(currentYear)[i] > Years(currentYear)[k]
    ensures y in Years(currentYear) <==> FIRST_YEAR <= y <= currentYear
  {
    var r := Years(currentYear);
    if FIRST_YEAR <= y <= currentYear {
      assert r[currentYear - y] == y;
    }
  }

  /** The month list holds exactly 1 to 12. */
  lemma MonthsAreTheRange(m: int)
    ensures m in Months() <==> 1 <= m <= 12
  {
    if 1 <= m <= 12 {
      assert Months()[12 - m] == m;
    }
  }

  /**
   * The form as it reaches the schema. `month` and `year` are the coerced numbers; the
   * id is carried but its UUID format is not checked here.
   */
  datatype AlbumParams = AlbumParams(id: string, title: string, month: real, year: real, category: string)

  datatype Field = TitleField | MonthField | YearField | CategoryField

  /** One issue: the field it is reported on and its message. */
  datatype Issue = Issue(field: Field, message: string)

  const TITLE_MESSAGE: string := "Název alba je povinný a délka musí být 3-70 znaků."
  const MONTH_MESSAGE: string := "Měsíc je povinný a musí to být číslo 1-12."
  const YEAR_MESSAGE: string := "Rok je povinný a musí to být číslo od " + DecimalString(FIRST_YEAR) + " do aktuálního roku."
  const CATEGORY_MESSAGE: string := "Kategorie je povinná a musí být jedna z: " + Join(CATEGORIES, ", ") + "."

  predicate IsInteger(x: real) {
    x == x.Floor as real
  }

  /** The issues of one field: one per failing check, in the order the checks are listed. */
  function Checks(field: Field, message: string, failing: seq<bool>): (r: seq<Issue>)
    ensures r == [] <==> true !in failing
    ensures forall x :: x in r ==> x == Issue(field, message)
    ensures (forall i, k :: 0 <= i < k < |failing| ==> !(failing[i] && failing[k])) ==> |r| <= 1
  {
    if failing == [] then []
    else
      assert failing == [failing[0]] + failing[1..];
      (if failing[0] then [Issue(field, message)] else []) + Checks(field, message, failing[1..])
  }

  function TitleIssues(title: string): (r: seq<Issue>)
    ensures r == [] <==> 3 <= |title| <= 70
    ensures forall x :: x in r ==> x == Issue(TitleField, TITLE_MESSAGE)
    ensures |r| <= 1
  {
    Checks(TitleField, TITLE_MESSAGE, [|title| < 3, |title| > 70])
  }

  /**
   * A failed integer check aborts the field's remaining checks, so a non-integer
   * month has exactly one issue; an integer month fails at most one of its bounds.
   */
  function MonthIssues(month: real): (r: seq<Issue>)
    ensures r == [] <==> IsInteger(month) && 1.0 <= month <= 12.0
    ensures forall x :: x in r ==> x == Issue(MonthField, MONTH_MESSAGE)
    ensures !IsInteger(month) ==> r == [Issue(MonthField, MONTH_MESSAGE)]
    ensures |r| <= 1
  {
    if !IsInteger(month) then [Issue(MonthField, MONTH_MESSAGE)]
    else Checks(MonthField, MONTH_MESSAGE, [month < 1.0, month > 12.0])
  }

  /**
   * As for the month, a non-integer year has exactly the one issue of the integer
   * check; an integer year gets one issue per bound it violates.
   */
  function YearIssues(year: real, currentYear: int): (r: seq<Issue>)
    ensures r == [] <==> IsInteger(year) && FIRST_YEAR as real <= year <= currentYear as real
    ensures forall x :: x in r ==> x == Issue(YearField, YEAR_MESSAGE)
    ensures !IsInteger(year) ==> r == [Issue(YearField, YEAR_MESSAGE)]
    ensures IsInteger(year) && currentYear >= FIRST_YEAR ==> |r| <= 1
  {
    if !IsInteger(year) then [Issue(YearField, YEAR_MESSAGE)]
    else Checks(YearField, YEAR_MESSAGE, [year > currentYear as real, year < FIRST_YEAR as real])
  }

  function CategoryIssues(category: string): (r: seq<Issue>)
    ensures r == [] <==> category in CATEGORIES
    ensures forall x :: x in r ==> x == Issue(CategoryField, CATEGORY_MESSAGE)
  {
    if category in CATEGORIES then [] else [Issue(CategoryField, CATEGORY_MESSAGE)]
  }

  /**
   * AlbumSearchParamsSchema: the params when every field passes, otherwise every
   * issue of every field in field order.
   */
  function ValidateAlbum(p: AlbumParams, currentYear: int): (r: Result<AlbumParams, seq<Issue>>)
    ensures r.Ok? <==> && 3 <= |p.title| <= 70
                       && IsInteger(p.month) && 1.0 <= p.month <= 12.0
                       && IsInteger(p.year) && FIRST_YEAR as real <= p.year <= currentYear as real
                       && p.category in CATEGORIES
    ensures r.Ok? ==> r.value == p
    ensures r.Err? ==> r.error == TitleIssues(p.title) + MonthIssues(p.month) + YearIssues(p.year, currentYear) + CategoryIssues(p.category)
  {
    var title := TitleIssues(p.title);
    var month := MonthIssues(p.month);
    var year := YearIssues(p.year, currentYear);
    var category := CategoryIssues(p.category);
    var issues := title + month + year + category;
    if issues == [] then Ok(p) else Err(issues)
  }

  /** A valid album's month and year are entries of the two pick lists. */
  lemma ValidAlbumIsPickable(p: AlbumParams, currentYear: int)
    requires currentYear >= FIRST_YEAR - 1
    requires ValidateAlbum(p, currentYear).Ok?
    ensures p.month.Floor in Months() && p.year.Floor in Years(currentYear)
  {
    MonthsAreTheRange(p.month.Floor);
    YearsAreTheRange(currentYear, p.year.Floor);
  }
}
