/**
 * Row filters of the active-table list and the toggle buttons that choose them.
 * Buttons fall into six categories; within a category the selected buttons'
 * filters are alternatives, and every category must be satisfied.
 */
module TableFilters {
  import opened Wrappers
  import opened TableColumns

  datatype SkillLevel = Beginner | Casual | Serious

  /** The "yes" marks the table model writes in the rating and password columns. */
  datatype Mark = RatedYes | PasswordYes

  /**
   * The regular expressions the panel filters with. How a regular expression
   * matches a cell is not modelled: every filter takes the matcher `find` as a
   * parameter.
   */
  datatype Pattern =
    | Regex(text: string)           // a regular expression written out in the panel
    | SkillCode(level: SkillLevel)  // the table model's code for a skill level
    | MarkAtStart(mark: Mark)       // "^" followed by the mark
    | MarkAbsent(mark: Mark)        // "^((?!" + mark + ").)*$": no occurrence of the mark

  /** A row as the sorter sees it: the text of each column. */
  type Row = Column -> string

  /** The row filters the panel builds: regex filters, the ignore-list filter, or and and. */
  datatype Filter =
    | RegexFilter(pattern: Pattern, column: Column)
    | NotIgnored(ignored: set<string>)
    | OrFilter(filters: seq<Filter>)
    | AndFilter(filters: seq<Filter>)

  /** Whether a row passes a filter. */
  predicate Includes(f: Filter, row: Row, find: (Pattern, string) -> bool)
  {
    match f
    case RegexFilter(p, c) => find(p, row(c))
    case NotIgnored(ignored) => row(Owner) !in ignored
    case OrFilter(fs) => exists i :: 0 <= i < |fs| && Includes(fs[i], row, find)
    case AndFilter(fs) => forall i :: 0 <= i < |fs| ==> Includes(fs[i], row, find)
  }

  /** What the panel installs when some category has nothing selected: a skill of "Nothing". */
  const NothingFilter: Filter := RegexFilter(Regex("Nothing"), Skill)

  datatype Category = StateCategory | TypeCategory | FormatCategory | SkillCategory | RatingCategory | PasswordCategory

  datatype FilterButton =
    | StateWaiting | StateActive | StateFinished
    | TypeMatch | TypeTourneyConstructed | TypeTourneyLimited
    | FormatBlock | FormatStandard | FormatModern | FormatLegacy | FormatVintage
    | FormatPremodern | FormatCommander | FormatTinyLeader | FormatLimited | FormatOther
    | SkillBeginner | SkillCasual | SkillSerious
    | Rated | Unrated
    | Open | PasswordProtected

  // The regular expressions of the state, type and format buttons.
  const WaitingRegex: string := "Waiting"
  const ActiveRegex: string := "Dueling|Constructing|Drafting|Sideboard"
  const MatchRegex: string := "Two|Commander|Free|Tiny|Momir"
  const TourneyConstructedRegex: string := "Constructed"
  const TourneyLimitedRegex: string := "Booster|Sealed"
  const BlockRegex: string := "^Constructed.*Block"
  const StandardRegex: string := "^Constructed - Standard"
  const ModernRegex: string := "^Constructed - Modern"
  const LegacyRegex: string := "^Constructed - Legacy"
  const VintageRegex: string := "^Constructed - Vintage"
  const PremodernRegex: string := "^Constructed - Premodern"
  const CommanderRegex: string := "^Commander|^Duel Commander|^Penny Dreadful Commander|^Freeform Commander|^MTGO 1v1 Commander|^Duel Brawl|^Brawl"
  const TinyLeaderRegex: string := "^Tiny"
  const LimitedRegex: string := "^Limited"
  const OtherFormatRegex: string := "^Momir Basic|^Constructed - Pauper|^Constructed - Frontier|^Constructed - Extended|^Constructed - Eternal|^Constructed - Historical|^Constructed - Super|^Constructed - Freeform|^Australian Highlander|^Canadian Highlander|^Constructed - Old"

  /** The buttons of each category, in the order the panel checks them. */
  function CategoryButtons(c: Category): seq<FilterButton>
  {
    match c
    case StateCategory => [StateWaiting, StateActive, StateFinished]
    case TypeCategory => [TypeMatch, TypeTourneyConstructed, TypeTourneyLimited]
    case FormatCategory => [FormatBlock, FormatStandard, FormatModern, FormatLegacy, FormatVintage,
                            FormatPremodern, FormatCommander, FormatTinyLeader, FormatLimited, FormatOther]
    case SkillCategory => [SkillBeginner, SkillCasual, SkillSerious]
    case RatingCategory => [Rated, Unrated]
    case PasswordCategory => [PasswordProtected, Open]
  }

  /** The category a button belongs to, read off its place in the panel. */
  function CategoryOf(b: FilterButton): Category
  {
    if b.StateWaiting? || b.StateActive? || b.StateFinished? then StateCategory
    else if b.TypeMatch? || b.TypeTourneyConstructed? || b.TypeTourneyLimited? then TypeCategory
    else if b.SkillBeginner? || b.SkillCasual? || b.SkillSerious? then SkillCategory
    else if b.Rated? || b.Unrated? then RatingCategory
    else if b.Open? || b.PasswordProtected? then PasswordCategory
    else FormatCategory
  }

  /** The column a category's filters look at. */
  function CategoryColumn(c: Category): Column
  {
    match c
    case StateCategory => Status
    case TypeCategory => GameType
    case FormatCategory => DeckType
    case SkillCategory => Skill
    case RatingCategory => Rating
    case PasswordCategory => Password
  }

  /** Every button is listed in exactly the category it belongs to. */
  lemma CategoryButtonsPartition(b: FilterButton, c: Category)
    ensures b in CategoryButtons(c) <==> CategoryOf(b) == c
  {
  }

  /**
   * The filter each button contributes when selected. The "finished" state
   * button is among the filter buttons but contributes no filter.
   */
  function ButtonFilter(b: FilterButton): Option<Filter>
  {
    match b
    case StateWaiting => Some(RegexFilter(Regex(WaitingRegex), Status))
    case StateActive => Some(RegexFilter(Regex(ActiveRegex), Status))
    case StateFinished => None
    case TypeMatch => Some(RegexFilter(Regex(MatchRegex), GameType))
    case TypeTourneyConstructed => Some(RegexFilter(Regex(TourneyConstructedRegex), GameType))
    case TypeTourneyLimited => Some(RegexFilter(Regex(TourneyLimitedRegex), GameType))
    case FormatBlock => Some(RegexFilter(Regex(BlockRegex), DeckType))
    case FormatStandard => Some(RegexFilter(Regex(StandardRegex), DeckType))
    case FormatModern => Some(RegexFilter(Regex(ModernRegex), DeckType))
    case FormatLegacy => Some(RegexFilter(Regex(LegacyRegex), DeckType))
    case FormatVintage => Some(RegexFilter(Regex(VintageRegex), DeckType))
    case FormatPremodern => Some(RegexFilter(Regex(PremodernRegex), DeckType))
    case FormatCommander => Some(RegexFilter(Regex(CommanderRegex), DeckType))
    case FormatTinyLeader => Some(RegexFilter(Regex(TinyLeaderRegex), DeckType))
    case FormatLimited => Some(RegexFilter(Regex(LimitedRegex), DeckType))
    case FormatOther => Some(RegexFilter(Regex(OtherFormatRegex), DeckType))
    case SkillBeginner => Some(RegexFilter(SkillCode(Beginner), Skill))
    case SkillCasual => Some(RegexFilter(SkillCode(Casual), Skill))
    case SkillSerious => Some(RegexFilter(SkillCode(Serious), Skill))
    case Rated => Some(RegexFilter(MarkAtStart(RatedYes), Rating))
    case Unrated => Some(RegexFilter(MarkAbsent(RatedYes), Rating))
    case PasswordProtected => Some(RegexFilter(MarkAtStart(PasswordYes), Password))
    case Open => Some(RegexFilter(MarkAbsent(PasswordYes), Password))
  }

  /**
   * Only the "finished" button lacks a filter; every other button's filter is a
   * regular expression on the column of the button's category.
   */
  lemma ButtonFilterShape(b: FilterButton)
    ensures ButtonFilter(b).None? <==> b == StateFinished
    ensures ButtonFilter(b).Some? ==>
      ButtonFilter(b).value.RegexFilter? && ButtonFilter(b).value.column == CategoryColumn(CategoryOf(b))
  {
  }

  /** A category contributes nothing: none of its selected buttons has a filter. */
  predicate CategoryEmpty(c: Category, selected: set<FilterButton>)
  {
    forall b :: b in selected && b in CategoryButtons(c) ==> ButtonFilter(b).None?
  }

  /** Some selected button of the category has a filter the row passes. */
  ghost predicate CategoryPasses(c: Category, selected: set<FilterButton>, row: Row, find: (Pattern, string) -> bool)
  {
    exists b :: b in selected && b in CategoryButtons(c) && ButtonFilter(b).Some? && Includes(ButtonFilter(b).value, row, find)
  }

  /** Some category contributes nothing, so the panel installs the "Nothing" filter. */
  predicate NoSelection(selected: set<FilterButton>)
  {
    || CategoryEmpty(StateCategory, selected) || CategoryEmpty(TypeCategory, selected)
    || CategoryEmpty(FormatCategory, selected) || CategoryEmpty(SkillCategory, selected)
    || CategoryEmpty(RatingCategory, selected) || CategoryEmpty(PasswordCategory, selected)
  }

  /**
   * Which rows the lobby shows for a selection: every category is met by one of
   * its selected filters, and the owner is not on the ignore list.
   */
  ghost predicate Passes(selected: set<FilterButton>, ignored: set<string>, row: Row, find: (Pattern, string) -> bool)
  {
    && CategoryPasses(StateCategory, selected, row, find) && CategoryPasses(TypeCategory, selected, row, find)
    && CategoryPasses(FormatCategory, selected, row, find) && CategoryPasses(SkillCategory, selected, row, find)
    && CategoryPasses(RatingCategory, selected, row, find) && CategoryPasses(PasswordCategory, selected, row, find)
    && row(Owner) !in ignored
  }

  /** The list holds exactly the filters of the selected buttons among `visited`. */
  ghost predicate CollectsFrom(fs: seq<Filter>, visited: seq<FilterButton>, selected: set<FilterButton>)
  {
    forall f :: f in fs <==> exists b :: b in selected && b in visited && ButtonFilter(b) == Some(f)
  }

  /** The filter a button adds to its category's list: its own when selected, else none. */
  function Picked(b: FilterButton, selected: set<FilterButton>): seq<Filter>
  {
    if b in selected && ButtonFilter(b).Some? then [ButtonFilter(b).value] else []
  }

  /** The list the panel builds by visiting the buttons one after another. */
  function Collected(visited: seq<FilterButton>, selected: set<FilterButton>): seq<Filter>
  {
    if visited == [] then []
    else Collected(visited[..|visited| - 1], selected) + Picked(visited[|visited| - 1], selected)
  }

  /** The list built by visiting buttons holds exactly the filters of the selected ones. */
  lemma {:induction false} CollectedCollects(visited: seq<FilterButton>, selected: set<FilterButton>)
    ensures CollectsFrom(Collected(visited, selected), visited, selected)
  {
    if visited != [] {
      var init, b := visited[..|visited| - 1], visited[|visited| - 1];
      CollectedCollects(init, selected);
      assert visited == init + [b];
      CollectsStep(Collected(init, selected), init, b, selected);
    }
  }

  /** Visiting one more button extends the list by exactly that button's filter, if selected. */
  lemma CollectsStep(fs: seq<Filter>, init: seq<FilterButton>, b: FilterButton, selected: set<FilterButton>)
    requires CollectsFrom(fs, init, selected)
    ensures CollectsFrom(fs + Picked(b, selected), init + [b], selected)
  {
    forall f | f in fs + Picked(b, selected)
      ensures exists b' :: b' in selected && b' in init + [b] && ButtonFilter(b') == Some(f)
    {
      StepListed(fs, init, b, selected, f);
    }
    forall f | exists b' :: b' in selected && b' in init + [b] && ButtonFilter(b') == Some(f)
      ensures f in fs + Picked(b, selected)
    {
      StepFound(fs, init, b, selected, f);
    }
  }

  /** A filter on the extended list comes from a selected button visited so far. */
  lemma StepListed(fs: seq<Filter>, init: seq<FilterButton>, b: FilterButton, selected: set<FilterButton>, f: Filter)
    requires CollectsFrom(fs, init, selected)
    requires f in fs + Picked(b, selected)
    ensures exists b' :: b' in selected && b' in init + [b] && ButtonFilter(b') == Some(f)
  {
    if f in fs {
      var b' :| b' in selected && b' in init && ButtonFilter(b') == Some(f);
      assert b' in init + [b];
    } else {
      assert b in selected && b in init + [b] && ButtonFilter(b) == Some(f);
    }
  }

  /** A selected button visited so far has its filter on the extended list. */
  lemma StepFound(fs: seq<Filter>, init: seq<FilterButton>, b: FilterButton, selected: set<FilterButton>, f: Filter)
    requires CollectsFrom(fs, init, selected)
    requires exists b' :: b' in selected && b' in init + [b] && ButtonFilter(b') == Some(f)
    ensures f in fs + Picked(b, selected)
  {
    var b' :| b' in selected && b' in init + [b] && ButtonFilter(b') == Some(f);
    if b' in init {
      assert f in fs;
    } else {
      assert b' == b;
    }
  }

  /** `if (button.isSelected()) list.add(filter)` for one button. */
  method AddIfSelected(fs: seq<Filter>, b: FilterButton, selected: set<FilterButton>, ghost visited: seq<FilterButton>)
    returns (r: seq<Filter>)
    requires fs == Collected(visited, selected)
    ensures r == Collected(visited + [b], selected)
  {
    r := fs;
    if b in selected && ButtonFilter(b).Some? {
      r := r + [ButtonFilter(b).value];
    }
    assert (visited + [b])[..|visited|] == visited;
  }

  /** One filter stands for itself; several become their or. */
  function Alternatives(fs: seq<Filter>): (f: Filter)
    requires fs != []
  {
    if |fs| > 1 then OrFilter(fs) else fs[0]
  }

  /** Collapsing a list to one filter keeps its meaning: the row passes one of the list. */
  lemma AlternativesIncludes(fs: seq<Filter>, row: Row, find: (Pattern, string) -> bool)
    requires fs != []
    ensures Includes(Alternatives(fs), row, find) <==> exists i :: 0 <= i < |fs| && Includes(fs[i], row, find)
  {
    if |fs| == 1 {
      if Includes(fs[0], row, find) {
        assert 0 <= 0 < |fs| && Includes(fs[0], row, find);
      }
    }
  }

  /** The list the panel builds for one category. */
  function CategoryList(c: Category, selected: set<FilterButton>): seq<Filter>
  {
    Collected(CategoryButtons(c), selected)
  }

  /** A category's list is empty exactly when the category contributes nothing. */
  lemma CategoryListEmpty(c: Category, selected: set<FilterButton>)
    ensures CategoryList(c, selected) == [] <==> CategoryEmpty(c, selected)
  {
    var fs := CategoryList(c, selected);
    CollectedCollects(CategoryButtons(c), selected);
    if fs == [] {
      forall b | b in selected && b in CategoryButtons(c) ensures ButtonFilter(b).None? {
        assert forall f :: ButtonFilter(b) == Some(f) ==> f !in fs;
      }
    } else {
      assert fs[0] in fs;
    }
  }

  /** A non-empty category list, collapsed to one filter, means the category's condition. */
  lemma CategoryListMeaning(c: Category, selected: set<FilterButton>, row: Row, find: (Pattern, string) -> bool)
    requires CategoryList(c, selected) != []
    ensures Includes(Alternatives(CategoryList(c, selected)), row, find) <==> CategoryPasses(c, selected, row, find)
  {
    var fs := CategoryList(c, selected);
    CollectedCollects(CategoryButtons(c), selected);
    AlternativesIncludes(fs, row, find);
    if Includes(Alternatives(fs), row, find) {
      var i :| 0 <= i < |fs| && Includes(fs[i], row, find);
      assert fs[i] in fs;
    }
    if CategoryPasses(c, selected, row, find) {
      var b :| b in selected && b in CategoryButtons(c) && ButtonFilter(b).Some? && Includes(ButtonFilter(b).value, row, find);
      assert ButtonFilter(b).value in fs;
      var i :| 0 <= i < |fs| && fs[i] == ButtonFilter(b).value;
    }
  }

  /** Selecting the "finished" state button never changes what the lobby shows. */
  lemma FinishedButtonIsInert(selected: set<FilterButton>, ignored: set<string>, row: Row, find: (Pattern, string) -> bool)
    ensures NoSelection(selected + {StateFinished}) == NoSelection(selected - {StateFinished})
    ensures Passes(selected + {StateFinished}, ignored, row, find) == Passes(selected - {StateFinished}, ignored, row, find)
  {
    var with, without := selected + {StateFinished}, selected - {StateFinished};
    forall c: Category ensures CategoryEmpty(c, with) == CategoryEmpty(c, without) {
      if !CategoryEmpty(c, with) {
        var b :| b in with && b in CategoryButtons(c) && ButtonFilter(b).Some?;
        assert b in without;
      }
    }
    forall c: Category ensures CategoryPasses(c, with, row, find) == CategoryPasses(c, without, row, find) {
      if CategoryPasses(c, with, row, find) {
        var b :| b in with && b in CategoryButtons(c) && ButtonFilter(b).Some? && Includes(ButtonFilter(b).value, row, find);
        assert b in without;
      }
    }
  }
}
