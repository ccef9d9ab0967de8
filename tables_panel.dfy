/**
 * The lobby panel's own state: the server's message of the day with a cursor
 * and a "next" button, and the row filter it installs on the active-table
 * sorter when a filter toggle button changes.
 */
module TablesPanel {
  import opened Wrappers
  import opened TableColumns
  import opened TableFilters
  import opened RowSorting

  // ---------------------------------------------------------------------
  // Message-of-the-day cursor
  // ---------------------------------------------------------------------

  /** The message after `current` among `size` messages, back to the first after the last. */
  function NextMessageIndex(current: nat, size: nat): (r: nat)
    requires size > 0
    ensures r < size
    ensures current < size ==> r == (current + 1) % size
  {
    if current + 1 >= size then
      assert current < size ==> (current + 1) % size == size % size == 0;
      0
    else
      assert (current + 1) % size == current + 1;
      current + 1
  }

  /** The cursor after n presses of the "next" button. */
  function AdvanceMessage(current: nat, size: nat, n: nat): nat
    requires size > 0
  {
    if n == 0 then current else NextMessageIndex(AdvanceMessage(current, size, n - 1), size)
  }

  /** Presses add up: m presses then n presses are m + n presses. */
  lemma {:induction false} AdvanceMessageAdds(current: nat, size: nat, m: nat, n: nat)
    requires size > 0
    ensures AdvanceMessage(current, size, m + n) == AdvanceMessage(AdvanceMessage(current, size, m), size, n)
  {
    if n > 0 {
      AdvanceMessageAdds(current, size, m, n - 1);
    }
  }

  /** Before the end of the list each press moves one message on. */
  lemma {:induction false} AdvanceMessageWithin(current: nat, size: nat, n: nat)
    requires current + n < size
    ensures AdvanceMessage(current, size, n) == current + n
  {
    if n > 0 {
      AdvanceMessageWithin(current, size, n - 1);
    }
  }

  /** After as many presses as there are messages, the footer shows the same message again. */
  lemma AdvanceMessageFullCycle(current: nat, size: nat)
    requires current < size
    ensures AdvanceMessage(current, size, size) == current
  {
    var toLast := size - 1 - current;
    AdvanceMessageWithin(current, size, toLast);
    AdvanceMessageAdds(current, size, toLast, 1 + current);
    AdvanceMessageAdds(size - 1, size, 1, current);
    assert AdvanceMessage(size - 1, size, 1) == 0;
    AdvanceMessageWithin(0, size, current);
  }

  // ---------------------------------------------------------------------
  // Filter lists, one per category, in the order the panel checks the buttons
  // ---------------------------------------------------------------------

  method StateFilters(selected: set<FilterButton>) returns (fs: seq<Filter>)
    ensures fs == CategoryList(StateCategory, selected)
  {
    fs := [];
    ghost var visited: seq<FilterButton> := [];
    fs := AddIfSelected(fs, StateWaiting, selected, visited); visited := visited + [StateWaiting];
    fs := AddIfSelected(fs, StateActive, selected, visited); visited := visited + [StateActive];
    // the "finished" button has no filter, so visiting it would add nothing
    assert Collected(visited + [StateFinished], selected) == fs by {
      assert (visited + [StateFinished])[..|visited|] == visited;
    }
    visited := visited + [StateFinished];
    assert visited == CategoryButtons(StateCategory);
  }

  method TypeFilters(selected: set<FilterButton>) returns (fs: seq<Filter>)
    ensures fs == CategoryList(TypeCategory, selected)
  {
    fs := [];
    ghost var visited: seq<FilterButton> := [];
    fs := AddIfSelected(fs, TypeMatch, selected, visited); visited := visited + [TypeMatch];
    fs := AddIfSelected(fs, TypeTourneyConstructed, selected, visited); visited := visited + [TypeTourneyConstructed];
    fs := AddIfSelected(fs, TypeTourneyLimited, selected, visited); visited := visited + [TypeTourneyLimited];
    assert visited == CategoryButtons(TypeCategory);
  }

  method FormatFilters(selected: set<FilterButton>) returns (fs: seq<Filter>)
    ensures fs == CategoryList(FormatCategory, selected)
  {
    fs := [];
    ghost var visited: seq<FilterButton> := [];
    fs := AddIfSelected(fs, FormatBlock, selected, visited); visited := visited + [FormatBlock];
    fs := AddIfSelected(fs, FormatStandard, selected, visited); visited := visited + [FormatStandard];
    fs := AddIfSelected(fs, FormatModern, selected, visited); visited := visited + [FormatModern];
    fs := AddIfSelected(fs, FormatLegacy, selected, visited); visited := visited + [FormatLegacy];
    fs := AddIfSelected(fs, FormatVintage, selected, visited); visited := visited + [FormatVintage];
    fs := AddIfSelected(fs, FormatPremodern, selected, visited); visited := visited + [FormatPremodern];
    fs := AddIfSelected(fs, FormatCommander, selected, visited); visited := visited + [FormatCommander];
    fs := AddIfSelected(fs, FormatTinyLeader, selected, visited); visited := visited + [FormatTinyLeader];
    fs := AddIfSelected(fs, FormatLimited, selected, visited); visited := visited + [FormatLimited];
    fs := AddIfSelected(fs, FormatOther, selected, visited); visited := visited + [FormatOther];
    assert visited == CategoryButtons(FormatCategory);
  }

  method SkillFilters(selected: set<FilterButton>) returns (fs: seq<Filter>)
    ensures fs == CategoryList(SkillCategory, selected)
  {
    fs := [];
    ghost var visited: seq<FilterButton> := [];
    fs := AddIfSelected(fs, SkillBeginner, selected, visited); visited := visited + [SkillBeginner];
    fs := AddIfSelected(fs, SkillCasual, selected, visited); visited := visited + [SkillCasual];
    fs := AddIfSelected(fs, SkillSerious, selected, visited); visited := visited + [SkillSerious];
    assert visited == CategoryButtons(SkillCategory);
  }

  method RatingFilters(selected: set<FilterButton>) returns (fs: seq<Filter>)
    ensures fs == CategoryList(RatingCategory, selected)
  {
    fs := [];
    ghost var visited: seq<FilterButton> := [];
    fs := AddIfSelected(fs, Rated, selected, visited); visited := visited + [Rated];
    fs := AddIfSelected(fs, Unrated, selected, visited); visited := visited + [Unrated];
    assert visited == CategoryButtons(RatingCategory);
  }

  method PasswordFilters(selected: set<FilterButton>) returns (fs: seq<Filter>)
    ensures fs == CategoryList(PasswordCategory, selected)
  {
    fs := [];
    ghost var visited: seq<FilterButton> := [];
    fs := AddIfSelected(fs, PasswordProtected, selected, visited); visited := visited + [PasswordProtected];
    fs := AddIfSelected(fs, Open, selected, visited); visited := visited + [Open];
    assert visited == CategoryButtons(PasswordCategory);
  }

  /** A non-empty category list joins the combined list as one filter; an empty one adds nothing. */
  method AddCategory(filterList: seq<Filter>, fs: seq<Filter>) returns (r: seq<Filter>)
    ensures fs == [] ==> r == filterList
    ensures fs != [] ==> r == filterList + [Alternatives(fs)]
  {
    if |fs| > 1 {
      r := filterList + [OrFilter(fs)];
    } else if |fs| == 1 {
      r := filterList + fs;
    } else {
      r := filterList;
    }
  }

  /** One filter is installed as it is; several as their and. */
  function AllOf(fs: seq<Filter>): Filter
    requires fs != []
  {
    if |fs| == 1 then fs[0] else AndFilter(fs)
  }

  /** A row passes the installed filter exactly when it passes every filter of the list. */
  lemma AllOfIncludes(fs: seq<Filter>, row: Row, find: (Pattern, string) -> bool)
    requires fs != []
    ensures Includes(AllOf(fs), row, find) <==> forall i :: 0 <= i < |fs| ==> Includes(fs[i], row, find)
  {
  }

  /** A row passes the combined filter when it passes each category's alternatives and the ignore list. */
  lemma CombinedIncludes(
    st: seq<Filter>, ty: seq<Filter>, fo: seq<Filter>, sk: seq<Filter>, ra: seq<Filter>, pw: seq<Filter>,
    ignoreList: set<string>, row: Row, find: (Pattern, string) -> bool)
    requires st != [] && ty != [] && fo != [] && sk != [] && ra != [] && pw != []
    ensures Includes(AllOf(Combined(st, ty, fo, sk, ra, pw, ignoreList)), row, find) <==>
      && Includes(Alternatives(st), row, find) && Includes(Alternatives(ty), row, find)
      && Includes(Alternatives(fo), row, find) && Includes(Alternatives(sk), row, find)
      && Includes(Alternatives(ra), row, find) && Includes(Alternatives(pw), row, find)
      && row(Owner) !in ignoreList
  {
    var fl := Combined(st, ty, fo, sk, ra, pw, ignoreList);
    AllOfIncludes(fl, row, find);
    assert fl[0] == Alternatives(st) && fl[1] == Alternatives(ty) && fl[2] == Alternatives(fo);
    assert fl[3] == Alternatives(sk) && fl[4] == Alternatives(ra) && fl[5] == Alternatives(pw);
    if ignoreList != {} {
      assert fl[6] == NotIgnored(ignoreList);
    }
  }

  /** The six category lists and the ignore list, combined, mean exactly Passes. */
  lemma CombinedMeaning(
    st: seq<Filter>, ty: seq<Filter>, fo: seq<Filter>, sk: seq<Filter>, ra: seq<Filter>, pw: seq<Filter>,
    selected: set<FilterButton>, ignoreList: set<string>, row: Row, find: (Pattern, string) -> bool)
    requires st == CategoryList(StateCategory, selected) && ty == CategoryList(TypeCategory, selected)
    requires fo == CategoryList(FormatCategory, selected) && sk == CategoryList(SkillCategory, selected)
    requires ra == CategoryList(RatingCategory, selected) && pw == CategoryList(PasswordCategory, selected)
    requires st != [] && ty != [] && fo != [] && sk != [] && ra != [] && pw != []
    ensures Includes(AllOf(Combined(st, ty, fo, sk, ra, pw, ignoreList)), row, find)
      <==> Passes(selected, ignoreList, row, find)
  {
    CombinedIncludes(st, ty, fo, sk, ra, pw, ignoreList, row, find);
    CategoryListMeaning(StateCategory, selected, row, find);
    CategoryListMeaning(TypeCategory, selected, row, find);
    CategoryListMeaning(FormatCategory, selected, row, find);
    CategoryListMeaning(SkillCategory, selected, row, find);
    CategoryListMeaning(RatingCategory, selected, row, find);
    CategoryListMeaning(PasswordCategory, selected, row, find);
  }

  /** CombinedMeaning for every row and every regular-expression matcher. */
  lemma CombinedMeaningAll(
    st: seq<Filter>, ty: seq<Filter>, fo: seq<Filter>, sk: seq<Filter>, ra: seq<Filter>, pw: seq<Filter>,
    selected: set<FilterButton>, ignoreList: set<string>)
    requires st == CategoryList(StateCategory, selected) && ty == CategoryList(TypeCategory, selected)
    requires fo == CategoryList(FormatCategory, selected) && sk == CategoryList(SkillCategory, selected)
    requires ra == CategoryList(RatingCategory, selected) && pw == CategoryList(PasswordCategory, selected)
    requires st != [] && ty != [] && fo != [] && sk != [] && ra != [] && pw != []
    ensures forall row: Row, find: (Pattern, string) -> bool ::
      Includes(AllOf(Combined(st, ty, fo, sk, ra, pw, ignoreList)), row, find) <==> Passes(selected, ignoreList, row, find)
  {
    forall row: Row, find: (Pattern, string) -> bool
      ensures Includes(AllOf(Combined(st, ty, fo, sk, ra, pw, ignoreList)), row, find) <==> Passes(selected, ignoreList, row, find)
    {
      CombinedMeaning(st, ty, fo, sk, ra, pw, selected, ignoreList, row, find);
    }
  }

  /** Some category list is empty exactly when nothing is selected in some category. */
  lemma CategoryListsNonEmpty(selected: set<FilterButton>)
    ensures NoSelection(selected) <==>
      || CategoryList(StateCategory, selected) == [] || CategoryList(TypeCategory, selected) == []
      || CategoryList(FormatCategory, selected) == [] || CategoryList(SkillCategory, selected) == []
      || CategoryList(RatingCategory, selected) == [] || CategoryList(PasswordCategory, selected) == []
  {
    CategoryListEmpty(StateCategory, selected);
    CategoryListEmpty(TypeCategory, selected);
    CategoryListEmpty(FormatCategory, selected);
    CategoryListEmpty(SkillCategory, selected);
    CategoryListEmpty(RatingCategory, selected);
    CategoryListEmpty(PasswordCategory, selected);
  }

  /** The combined list: each category's alternatives, then the ignore-list filter if it has names. */
  function Combined(
    st: seq<Filter>, ty: seq<Filter>, fo: seq<Filter>, sk: seq<Filter>, ra: seq<Filter>, pw: seq<Filter>,
    ignoreList: set<string>): seq<Filter>
    requires st != [] && ty != [] && fo != [] && sk != [] && ra != [] && pw != []
  {
    [Alternatives(st), Alternatives(ty), Alternatives(fo), Alternatives(sk), Alternatives(ra), Alternatives(pw)]
    + (if ignoreList == {} then [] else [NotIgnored(ignoreList)])
  }

  /** The footer text the panel's layout starts with, before any message arrives. */
  const WelcomeText: string := "You are playing Mage version 0.7.5. Welcome! -- Mage dev team --"

  /** The lobby panel's state that the modelled operations read and write. */
  class TablesPanel {
    var messages: Option<seq<string>>  // null until the first reload
    var currentMessage: int
    var footerText: string
    var footerVisible: bool
    var nextButtonVisible: bool
    const sorter: ActiveTablesSorter

    /** The cursor points at a message when there is one, and the footer shows that message. */
    ghost predicate Valid()
      reads this, sorter
    {
      && sorter.Valid()
      && 0 <= currentMessage
      && (messages.None? || messages.value == [] ==> currentMessage == 0)
      && (messages.Some? && messages.value != [] ==>
            currentMessage < |messages.value| && footerText == messages.value[currentMessage])
    }

    /**
     * The panel's constructor. `restored` is the button selection and `ignoreList`
     * the ignore list read back from the saved settings; `restoreFilters` installs
     * the filter they describe before the constructor returns.
     */
    constructor (restored: set<FilterButton>, ignoreList: set<string>)
      ensures Valid() && fresh(sorter)
      ensures messages == None && currentMessage == 0
      ensures sorter.sortKeys == SeatsThenCreated
      ensures sorter.rowFilter == Some(RowFilterFor(restored, ignoreList))
      ensures footerText == WelcomeText
    {
      messages := None;
      currentMessage := 0;
      footerText := WelcomeText;
      footerVisible := true;
      nextButtonVisible := true;
      sorter := new ActiveTablesSorter();
      new;
      SetTableFilter(restored, ignoreList);
    }

    /**
     * `reloadMessages`: take the server's list (an empty list when it sends none),
     * point at the first message, show the footer only for a non-empty list and
     * the "next" button only when there is more than one message. For an empty
     * list the button and the text are left as they were.
     */
    method ReloadMessages(serverMessages: Option<seq<string>>)
      requires Valid()
      modifies this
      ensures Valid()
      ensures messages == Some(if serverMessages.Some? then serverMessages.value else [])
      ensures currentMessage == 0
      ensures footerVisible <==> messages.value != []
      ensures messages.value != [] ==> nextButtonVisible == (|messages.value| > 1) && footerText == messages.value[0]
      ensures messages.value == [] ==> nextButtonVisible == old(nextButtonVisible) && footerText == old(footerText)
      ensures (footerVisible && nextButtonVisible) <==> |messages.value| > 1
    {
      if serverMessages.Some? {
        messages := serverMessages;
      } else {
        messages := Some([]);
      }
      currentMessage := 0;
      if messages.value == [] {
        footerVisible := false;
      } else {
        footerVisible := true;
        footerText := messages.value[0];
        nextButtonVisible := |messages.value| > 1;
      }
    }

    /** The "next" button: move to the following message, wrapping after the last. */
    method FooterNext()
      requires Valid()
      modifies this
      ensures Valid()
      ensures messages == old(messages)
      ensures footerVisible == old(footerVisible) && nextButtonVisible == old(nextButtonVisible)
      ensures messages.Some? && messages.value != [] ==>
        currentMessage == NextMessageIndex(old(currentMessage), |messages.value|)
      ensures messages.None? || messages.value == [] ==>
        currentMessage == old(currentMessage) && footerText == old(footerText)
    {
      if messages.Some? && messages.value != [] {
        currentMessage := currentMessage + 1;
        if currentMessage >= |messages.value| {
          currentMessage := 0;
        }
        footerText := messages.value[currentMessage];
      }
    }

    /** `setTableFilter`: install the filter the selected buttons and the ignore list describe. */
    method SetTableFilter(selected: set<FilterButton>, ignoreList: set<string>)
      requires Valid()
      modifies sorter
      ensures Valid()
      ensures sorter.sortKeys == old(sorter.sortKeys)
      ensures sorter.rowFilter == Some(RowFilterFor(selected, ignoreList))
    {
      var filter := ComposeRowFilter(selected, ignoreList);
      sorter.SetRowFilter(filter);
    }
  }

  /**
   * The filter `setTableFilter` installs for given category lists: the "Nothing"
   * filter when some list is empty, otherwise the and of every category's
   * alternatives, plus the ignore-list filter when the list has names.
   */
  function Compose(
    st: seq<Filter>, ty: seq<Filter>, fo: seq<Filter>, sk: seq<Filter>, ra: seq<Filter>, pw: seq<Filter>,
    ignoreList: set<string>): (r: Filter)
    ensures r == NothingFilter <==> st == [] || ty == [] || fo == [] || sk == [] || ra == [] || pw == []
    ensures r != NothingFilter ==> r.AndFilter? && |r.filters| == if ignoreList == {} then 6 else 7
    ensures r != NothingFilter && ignoreList != {} ==> r.filters[6] == NotIgnored(ignoreList)
  {
    if st == [] || ty == [] || fo == [] || sk == [] || ra == [] || pw == [] then NothingFilter
    else AllOf(Combined(st, ty, fo, sk, ra, pw, ignoreList))
  }

  /** The filter `setTableFilter` installs for the selected buttons and the ignore list. */
  function RowFilterFor(selected: set<FilterButton>, ignoreList: set<string>): (r: Filter)
    ensures r == NothingFilter <==> NoSelection(selected)
  {
    CategoryListsNonEmpty(selected);
    Compose(
      CategoryList(StateCategory, selected), CategoryList(TypeCategory, selected),
      CategoryList(FormatCategory, selected), CategoryList(SkillCategory, selected),
      CategoryList(RatingCategory, selected), CategoryList(PasswordCategory, selected), ignoreList)
  }

  /** The installed filter lets through exactly the rows Passes describes, unless nothing is selected. */
  lemma RowFilterMeaning(selected: set<FilterButton>, ignoreList: set<string>)
    ensures NoSelection(selected) ==> RowFilterFor(selected, ignoreList) == NothingFilter
    ensures !NoSelection(selected) ==> forall row: Row, find: (Pattern, string) -> bool ::
      Includes(RowFilterFor(selected, ignoreList), row, find) <==> Passes(selected, ignoreList, row, find)
  {
    CategoryListsNonEmpty(selected);
    if !NoSelection(selected) {
      CombinedMeaningAll(
        CategoryList(StateCategory, selected), CategoryList(TypeCategory, selected),
        CategoryList(FormatCategory, selected), CategoryList(SkillCategory, selected),
        CategoryList(RatingCategory, selected), CategoryList(PasswordCategory, selected), selected, ignoreList);
    }
  }

  /** `setTableFilter`: build each category's list from the selected buttons in turn, then combine them. */
  method ComposeRowFilter(selected: set<FilterButton>, ignoreList: set<string>) returns (filter: Filter)
    ensures filter == RowFilterFor(selected, ignoreList)
  {
    var stateFilters := StateFilters(selected);
    var typeFilters := TypeFilters(selected);
    var formatFilters := FormatFilters(selected);
    var skillFilters := SkillFilters(selected);
    var ratingFilters := RatingFilters(selected);
    var passwordFilters := PasswordFilters(selected);
    filter := CombineLists(stateFilters, typeFilters, formatFilters, skillFilters, ratingFilters, passwordFilters,
                           ignoreList);
  }

  /** The second half of `setTableFilter`: the "Nothing" filter, or the and of the categories and the ignore list. */
  method CombineLists(
    st: seq<Filter>, ty: seq<Filter>, fo: seq<Filter>, sk: seq<Filter>, ra: seq<Filter>, pw: seq<Filter>,
    ignoreList: set<string>) returns (filter: Filter)
    ensures filter == Compose(st, ty, fo, sk, ra, pw, ignoreList)
  {
    var ignoreFilters: seq<Filter> := [];
    if ignoreList != {} {
      ignoreFilters := [NotIgnored(ignoreList)];
    }
    if st == [] || ty == [] || fo == [] || sk == [] || ra == [] || pw == [] {
      filter := NothingFilter;
    } else {
      var filterList: seq<Filter> := [];
      filterList := AddCategory(filterList, st);
      filterList := AddCategory(filterList, ty);
      filterList := AddCategory(filterList, fo);
      filterList := AddCategory(filterList, sk);
      filterList := AddCategory(filterList, ra);
      filterList := AddCategory(filterList, pw);
      filterList := AddCategory(filterList, ignoreFilters);
      assert filterList == Combined(st, ty, fo, sk, ra, pw, ignoreList);
      filter := AllOf(filterList);
    }
  }
}
