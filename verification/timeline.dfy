/**
 * The timeline year filter of the portfolio page (`initTimeline` in main.js).
 *
 * The page holds a document-ordered list of year markers (`.year`, each with a
 * `data-year`) and a list of timeline items (`.card-item`, each with an
 * optional `data-year`). Exactly the markers and items of the selected year
 * carry the `active` class; previous/next controls step through the marker
 * years with wrap-around.
 */
module Timeline {
  import opened Wrappers
  import opened ClassFlags

  /** The year the page starts on (`let currentYear = "2023"`). */
  const DefaultYear: string := "2023"

  /**
   * Index chosen by the "previous" control: the year before the current one
   * in marker order, wrapping to the last marker when the current year is the
   * first one or is not among the markers at all (`indexOf` gives -1).
   */
  function PrevIndex(years: seq<string>, current: string): (r: nat)
    requires |years| > 0
    ensures r < |years|
  {
    var idx := IndexOf(years, current);
    if idx > 0 then idx - 1 else |years| - 1
  }

  /**
   * Index chosen by the "next" control: the year after the current one,
   * wrapping to the first marker from the last one; an unknown current year
   * (`indexOf` gives -1) also lands on the first marker.
   */
  function NextIndex(years: seq<string>, current: string): (r: nat)
    requires |years| > 0
    ensures r < |years|
  {
    var idx := IndexOf(years, current);
    if idx < |years| - 1 then idx + 1 else 0
  }

  /** "Next" from the first occurrence of a year steps forward one, wrapping at the end. */
  lemma NextFrom(years: seq<string>, i: nat)
    requires i < |years| && years[i] !in years[..i]
    ensures NextIndex(years, years[i]) == if i < |years| - 1 then i + 1 else 0
  {
  }

  /** "Previous" from the first occurrence of a year steps back one, wrapping at the start. */
  lemma PrevFrom(years: seq<string>, i: nat)
    requires i < |years| && years[i] !in years[..i]
    ensures PrevIndex(years, years[i]) == if i > 0 then i - 1 else |years| - 1
  {
  }

  /** A current year that no marker carries: "next" picks the first marker, "previous" the last. */
  lemma UnknownYearWraps(years: seq<string>, current: string)
    requires |years| > 0 && current !in years
    ensures NextIndex(years, current) == 0
    ensures PrevIndex(years, current) == |years| - 1
  {
  }

  /** With distinct marker years, "previous" undoes "next" and "next" undoes "previous". */
  lemma PrevNextRoundTrip(years: seq<string>, i: nat)
    requires Distinct(years) && i < |years|
    ensures years[PrevIndex(years, years[NextIndex(years, years[i])])] == years[i]
    ensures years[NextIndex(years, years[PrevIndex(years, years[i])])] == years[i]
  {
  }

  /**
   * Markers 2023, 2024, 2025 starting on 2023: "next" walks 2024, 2025 and
   * wraps to 2023; "previous" from 2023 wraps to 2025.
   */
  lemma ThreeYearTour()
    ensures var years := ["2023", "2024", "2025"];
            years[NextIndex(years, "2023")] == "2024" &&
            years[NextIndex(years, "2024")] == "2025" &&
            years[NextIndex(years, "2025")] == "2023" &&
            years[PrevIndex(years, "2023")] == "2025"
  {
  }

  /**
   * On a page whose marker years are distinct, the widget showing `year`
   * lights exactly one marker, the one carrying `year`, when a marker carries
   * it, and no marker otherwise.
   */
  lemma OneMarkerActive(f: TimelineFilter, year: string)
    requires f.Valid() && f.Shows(year) && Distinct(f.years)
    ensures CountTrue(f.yearActive[..]) == if year in f.years then 1 else 0
    ensures year in f.years ==> f.yearActive[IndexOf(f.years, year)]
  {
    MatchesDistinct(f.years, year);
  }

  /** The items lit for a year are exactly those declaring it, however many there are. */
  lemma ItemsActive(itemYears: seq<Option<string>>, year: string)
    ensures CountTrue(Matches(itemYears, Some(year))) == multiset(itemYears)[Some(year)]
    ensures forall j :: 0 <= j < |itemYears| && itemYears[j] == None ==> !Matches(itemYears, Some(year))[j]
  {
    CountMatches(itemYears, Some(year));
  }

  /**
   * When the page's markers do not include the default year, the initial
   * selection lights no marker at all.
   */
  lemma DefaultYearMissing(years: seq<string>)
    requires DefaultYear !in years
    ensures CountTrue(Matches(years, DefaultYear)) == 0
  {
    CountTrueNone(Matches(years, DefaultYear));
  }

  /**
   * The timeline widget: the marker and item lists are fixed by the page,
   * their `active` marks and the remembered current year change.
   */
  class TimelineFilter {
    /** `data-year` of each year marker, in document order. */
    const years: seq<string>
    /** `data-year` of each timeline item, absent where the item has none. */
    const itemYears: seq<Option<string>>
    /** Whether the page has the `.prev-year` / `.next-year` controls. */
    const hasPrev: bool
    const hasNext: bool
    /** `active` class of each marker and of each item. */
    const yearActive: array<bool>
    const itemActive: array<bool>
    /** The remembered selection (`currentYear`). */
    var currentYear: string

    ghost predicate Valid()
      reads this
    {
      yearActive.Length == |years| && itemActive.Length == |itemYears| && yearActive != itemActive
    }

    /** The page shows `year` as selected: exactly its markers and items are marked. */
    ghost predicate Shows(year: string)
      reads this, yearActive, itemActive
    {
      currentYear == year &&
      yearActive[..] == Matches(years, year) &&
      itemActive[..] == Matches(itemYears, Some(year))
    }

    /**
     * Page load followed by `initTimeline`: with no markers nothing is wired
     * and the markup's marks stay as they are; otherwise the default year is
     * selected.
     */
    constructor (years: seq<string>, itemYears: seq<Option<string>>,
                 yearMarks: seq<bool>, itemMarks: seq<bool>,
                 hasPrev: bool, hasNext: bool)
      requires |yearMarks| == |years| && |itemMarks| == |itemYears|
      ensures Valid() && fresh(yearActive) && fresh(itemActive)
      ensures this.years == years && this.itemYears == itemYears
      ensures this.hasPrev == hasPrev && this.hasNext == hasNext
      ensures |years| > 0 ==> Shows(DefaultYear)
      ensures |years| == 0 ==>
        currentYear == DefaultYear && yearActive[..] == yearMarks && itemActive[..] == itemMarks
    {
      this.years := years;
      this.itemYears := itemYears;
      this.hasPrev := hasPrev;
      this.hasNext := hasNext;
      yearActive := new bool[|yearMarks|](i requires 0 <= i < |yearMarks| => yearMarks[i]);
      itemActive := new bool[|itemMarks|](i requires 0 <= i < |itemMarks| => itemMarks[i]);
      currentYear := DefaultYear;
      new;
      if |years| > 0 {
        SetActiveYear(DefaultYear);
      }
    }

    /** `setActiveYear`: remember `year` and mark exactly its markers and items. */
    method SetActiveYear(year: string)
      requires Valid()
      modifies this`currentYear, yearActive, itemActive
      ensures Shows(year)
    {
      currentYear := year;
      for i := 0 to yearActive.Length
        invariant forall k :: 0 <= k < i ==> yearActive[k] == (years[k] == year)
        modifies yearActive
      {
        yearActive[i] := years[i] == year;
      }
      for i := 0 to itemActive.Length
        invariant forall k :: 0 <= k < i ==> itemActive[k] == (itemYears[k] == Some(year))
        modifies itemActive
      {
        itemActive[i] := itemYears[i] == Some(year);
      }
    }

    /** A click on year marker `i` selects that marker's year. */
    method ClickMarker(i: nat)
      requires Valid() && i < |years|
      modifies this`currentYear, yearActive, itemActive
      ensures Shows(years[i])
    {
      SetActiveYear(years[i]);
    }

    /**
     * A click on timeline item `j` selects the item's year; an item without a
     * (non-empty) `data-year`, or a page without markers, changes nothing.
     */
    method ClickItem(j: nat)
      requires Valid() && j < |itemYears|
      modifies this`currentYear, yearActive, itemActive
      ensures if |years| > 0 && itemYears[j].Some? && itemYears[j].value != ""
              then Shows(itemYears[j].value)
              else currentYear == old(currentYear) && unchanged(yearActive, itemActive)
    {
      if |years| > 0 && itemYears[j].Some? && itemYears[j].value != "" {
        SetActiveYear(itemYears[j].value);
      }
    }

    /** A click on the "previous" control, when the page has one and has markers. */
    method Prev()
      requires Valid()
      modifies this`currentYear, yearActive, itemActive
      ensures if |years| > 0 && hasPrev
              then Shows(years[PrevIndex(years, old(currentYear))])
              else currentYear == old(currentYear) && unchanged(yearActive, itemActive)
    {
      if |years| > 0 && hasPrev {
        var idx := IndexOf(years, currentYear);
        idx := if idx > 0 then idx - 1 else |years| - 1;
        SetActiveYear(years[idx]);
      }
    }

    /** A click on the "next" control, when the page has one and has markers. */
    method Next()
      requires Valid()
      modifies this`currentYear, yearActive, itemActive
      ensures if |years| > 0 && hasNext
              then Shows(years[NextIndex(years, old(currentYear))])
              else currentYear == old(currentYear) && unchanged(yearActive, itemActive)
    {
      if |years| > 0 && hasNext {
        var idx := IndexOf(years, currentYear);
        idx := if idx < |years| - 1 then idx + 1 else 0;
        SetActiveYear(years[idx]);
      }
    }
  }
}
