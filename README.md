# XMage: Petra Sphinx's reveal and the lobby's table list

This project models two small parts of XMage, the Magic: The Gathering game
server and client, and proves properties of them in Dafny.

1. **Petra Sphinx's activated ability** (`PetraSphinxEffect.apply`). The target
   player names a card. Then they reveal the top card of their library. If the
   card has the chosen name it goes to their hand, otherwise to their graveyard.
   A `Player` class holds the library, hand and graveyard, and the effect changes
   them in place. The naming prompt is a loop that asks again until the player
   chooses a name, and gives up if the player can no longer respond. The player's
   answers are a parameter.
2. **The lobby's active-table list** (`TablesPanel`, client side):
   - reading the "seats" column (`parseSeatsInfo`);
   - the seats comparator, which puts tables with a free seat first;
   - the sorter's header-click override and its initial sort keys;
   - the message-of-the-day cursor in the footer (`reloadMessages` and the
     "next" button);
   - the row filter that `setTableFilter` builds from the filter toggle buttons
     and the ignore list.

Files:

- `wrappers.dfy`: `Option` and `Result`.
- `java_text.dfy`: the parts of `String.split` and `Integer.parseInt` that the
  seat parser relies on.
- `seats_info.dfy`: `parseSeatsInfo` and the seats comparator.
- `table_columns.dfy`: the columns of the table model.
- `table_filters.dfy`:
  - the filters (regular-expression filters, or-filters, and-filters, the
    ignore-list filter) and which rows they include;
  - the filter toggle buttons and the filter each one contributes;
  - the per-category lists and what they mean.
- `row_sorting.dfy`: sort keys, the row sorter's standard toggle and the
  `ActiveTablesSorter` class, whose keys and row filter change in place.
- `tables_panel.dfy`: the panel class (messages, cursor, footer) and the
  composition of the row filter.
- `petra_sphinx.dfy`: the card's effect.

Main results:

- The seat text round-trips through the parser: `ParseSeatsText`.
- The seats comparator is a valid comparator that sorts free tables first:
  `CompareSeatsIsComparator` and `SortedPutsFreeFirst`.
- Pressing "next" as many times as there are messages comes back to the same
  message: `AdvanceMessageFullCycle`.
- The installed row filter shows exactly the rows described by the selection
  (`Passes`): `RowFilterMeaning`. A row passes when it matches one selected
  filter in every category and its owner is not ignored. If some category has
  nothing selected, the panel installs the "Nothing" filter instead.
- The reveal conserves cards and sends the top card to exactly one of hand and
  graveyard, chosen by the name: `RevealConserves` and `RevealMovesTopCard`.

## Model

| member | source | states |
|---|---|---|
| JavaText.Fields | Mage.Client/src/main/java/mage/client/table/TablesPanel.java:205 | cutting a string at every "/" gives at least one field, and no field contains the separator |
| JavaText.DropTrailingEmpty | Mage.Client/src/main/java/mage/client/table/TablesPanel.java:205 | `split` keeps a prefix of the fields that ends in a non-empty field; every field it drops is empty |
| JavaText.JoinFields | Mage.Client/src/main/java/mage/client/table/TablesPanel.java:205 | joining the fields with the separator gives back the original string, so the fields lose nothing |
| JavaText.FieldsNoSeparator | Mage.Client/src/main/java/mage/client/table/TablesPanel.java:205 | a string without the separator is one field |
| JavaText.FieldsAfterFirstSeparator | Mage.Client/src/main/java/mage/client/table/TablesPanel.java:205 | the text before the first separator is the first field, and the rest is split the same way |
| JavaText.FieldsTrailingSeparator | Mage.Client/src/main/java/mage/client/table/TablesPanel.java:205 | a separator at the end adds one empty field |
| JavaText.SplitTrailingSeparator | Mage.Client/src/main/java/mage/client/table/TablesPanel.java:205 | `split` ignores a trailing separator, except that a lone separator splits into no fields |
| JavaText.Split | Mage.Client/src/main/java/mage/client/table/TablesPanel.java:205 | `split` returns the whole string as one field when the separator is absent; otherwise the fields up to the last non-empty one, all others being empty; no field contains the separator |
| JavaText.ParseInt | Mage.Client/src/main/java/mage/client/table/TablesPanel.java:208-209 | `parseInt` succeeds exactly when the text is an optional sign followed by at least one digit and the number it denotes fits in 32 bits, and then gives that number |
| JavaText.NatDigits | Mage.Client/src/main/java/mage/client/table/TablesPanel.java:208-209 | printing a natural number gives a non-empty string of ASCII digits that starts with "0" only for zero, so without leading zeros |
| JavaText.IntToString | Mage.Client/src/main/java/mage/client/table/TablesPanel.java:208-209 | Java's printed form of an int: non-empty, starting with "-" exactly when the number is negative, digits otherwise |
| JavaText.NatDigitsValue | Mage.Client/src/main/java/mage/client/table/TablesPanel.java:208-209 | reading printed digits gives back the number |
| JavaText.ParseIntToString | Mage.Client/src/main/java/mage/client/table/TablesPanel.java:208-209 | `parseInt` reads back every 32-bit integer as Java prints it |
| JavaText.IntToStringHasNoSlash | Mage.Client/src/main/java/mage/client/table/TablesPanel.java:205 | a printed integer never contains "/" |
| SeatsInfo.ParseSeatsInfo | Mage.Client/src/main/java/mage/client/table/TablesPanel.java:204-212 | parsed numbers are 32-bit; any field count other than two gives 0/0; with two fields the result is an error exactly when either field fails `parseInt`, and otherwise the two parsed values; an error names a field that fails `parseInt` |
| SeatsInfo.SplitTwoFields | Mage.Client/src/main/java/mage/client/table/TablesPanel.java:205 | two slash-free fields, the second non-empty, joined by one "/" split back into those two fields (a trailing empty field would be dropped by `split`) |
| SeatsInfo.ParseSeatsSigned | Mage.Client/src/main/java/mage/client/table/TablesPanel.java:204-212 | "+1/2" reads as 1/2: a sign is accepted as `parseInt` accepts it |
| SeatsInfo.ParseSeatsLeadingZero | Mage.Client/src/main/java/mage/client/table/TablesPanel.java:204-212 | "07/3" reads as 7/3: leading zeros are accepted |
| SeatsInfo.ParseSeatsRejectsWord | Mage.Client/src/main/java/mage/client/table/TablesPanel.java:204-212 | "x/1" is an error naming the field "x" |
| SeatsInfo.ParseSeatsText | Mage.Client/src/main/java/mage/client/table/TablesPanel.java:204-212 | "a/b" written from two 32-bit integers parses back to exactly those two numbers |
| SeatsInfo.ParseSeatsTrailingSlash | Mage.Client/src/main/java/mage/client/table/TablesPanel.java:205-211 | adding "/" at the end of a seat string never changes what it parses to |
| SeatsInfo.ParseSeatsWithoutSlash | Mage.Client/src/main/java/mage/client/table/TablesPanel.java:205-211 | a string without "/" parses to 0/0, not to an error |
| SeatsInfo.IsFree | Mage.Client/src/main/java/mage/client/table/TablesPanel.java:282-283 | a table has a free seat exactly when its two numbers differ (definition, no contract) |
| SeatsInfo.BooleanCompare | Mage.Client/src/main/java/mage/client/table/TablesPanel.java:287 | `Boolean.compare` is 0 exactly when the two are equal, 1 exactly when only the first is true, -1 exactly when only the second is |
| SeatsInfo.CompareSeats | Mage.Client/src/main/java/mage/client/table/TablesPanel.java:277-293 | the comparator fails exactly when either string fails to parse, reporting the first string's error first; otherwise it is rank(v1) - rank(v2), free tables ranking 0 and full ones 1 |
| SeatsInfo.CompareSeatsByRank | Mage.Client/src/main/java/mage/client/table/TablesPanel.java:277-293 | on parsed strings the comparator is rank(v1) - rank(v2), where a free table ranks 0 and a full one 1; it is 0 exactly when both are free or both full, and -1 exactly when only the first is free |
| SeatsInfo.CompareSeatsFails | Mage.Client/src/main/java/mage/client/table/TablesPanel.java:280-281 | the comparator fails exactly when either string fails to parse |
| SeatsInfo.CompareSeatsIsComparator | Mage.Client/src/main/java/mage/client/table/TablesPanel.java:277-293 | on parseable strings the comparator meets the three clauses of `Comparator.compare`'s contract: sgn(compare(x, y)) == -sgn(compare(y, x)), transitivity of "<= 0", and when compare(x, y) == 0, x and y compare alike against every z |
| SeatsInfo.SortedPutsFreeFirst | Mage.Client/src/main/java/mage/client/table/TablesPanel.java:276-293 | in a list sorted by the comparator, every table before a free table is free too |
| RowSorting.Toggle | Mage.Client/src/main/java/mage/client/table/TablesPanel.java:254 | flipping a primary key keeps its column, and the new order is descending exactly when the old one was ascending |
| RowSorting.LastIndexOf | Mage.Client/src/main/java/mage/client/table/TablesPanel.java:254 | gives the last key on the column, or -1 when no key is on it |
| RowSorting.LastIndexOfUnique | Mage.Client/src/main/java/mage/client/table/TablesPanel.java:254 | a key on the column with no later key on it is the one LastIndexOf finds |
| RowSorting.LastKeyIndex | Mage.Client/src/main/java/mage/client/table/TablesPanel.java:254 | the backwards search loop finds LastIndexOf |
| RowSorting.DefaultToggled | Mage.Client/src/main/java/mage/client/table/TablesPanel.java:254 | after the standard toggle there are between 1 and the maximum number of keys; the first is on the clicked column, flipped when it was the column's only key at the front, ascending otherwise; the remaining old keys follow in their old order (the column's old key removed when it was not at the front), cut to the maximum; the list grows by one exactly when the column was not sorted, unless cut at the maximum |
| RowSorting.Reordered | Mage.Client/src/main/java/mage/client/table/TablesPanel.java:254 | before the cut: one key more exactly when the column had none; the front key is the flipped primary key or the column ascending; the rest are old keys |
| RowSorting.DefaultToggle | Mage.Client/src/main/java/mage/client/table/TablesPanel.java:254 | the standard toggle computes DefaultToggled: a primary key flips, any other key moves to the front ascending, and the list is cut to the maximum |
| RowSorting.ReorderedDistinct | Mage.Client/src/main/java/mage/client/table/TablesPanel.java:254 | before the cut, the clicked column is first and sorted, and no column appears twice |
| RowSorting.PrependDistinct | Mage.Client/src/main/java/mage/client/table/TablesPanel.java:254 | a key on a column that no other key uses can go in front without repeating a column |
| RowSorting.MoveToFrontDistinct | Mage.Client/src/main/java/mage/client/table/TablesPanel.java:254 | moving the column's key to the front does not repeat a column |
| RowSorting.PrefixDistinct | Mage.Client/src/main/java/mage/client/table/TablesPanel.java:254 | cutting the list short does not repeat a column |
| RowSorting.DefaultToggledShape | Mage.Client/src/main/java/mage/client/table/TablesPanel.java:254 | after the standard toggle the clicked column is the sorted primary key, no column is sorted twice, and there are between one and the maximum number of keys |
| RowSorting.DefaultToggledTwice | Mage.Client/src/main/java/mage/client/table/TablesPanel.java:254 | clicking the primary column twice restores the original keys |
| RowSorting.SpecialToggled | Mage.Client/src/main/java/mage/client/table/TablesPanel.java:241-252 | a click on "created" or "seats" clears the keys exactly when there are two, and otherwise installs seats ascending, created descending |
| RowSorting.SpecialClicksAlternate | Mage.Client/src/main/java/mage/client/table/TablesPanel.java:241-252 | starting from the initial order, an even number of such clicks gives the initial order and an odd number clears the sort |
| RowSorting.ActiveTablesSorter.constructor | Mage.Client/src/main/java/mage/client/table/TablesPanel.java:296-299 | the sorter starts with seats ascending, then created descending, and with no row filter |
| RowSorting.ActiveTablesSorter.SetRowFilter | Mage.Client/src/main/java/mage/client/table/TablesPanel.java:906-908 | installing a filter replaces the row filter and leaves the sort keys |
| RowSorting.ActiveTablesSorter.ToggleSortOrder | Mage.Client/src/main/java/mage/client/table/TablesPanel.java:239-256 | "created" and "seats" use the two-state toggle, every other column the standard toggle; the sorter stays valid (at most the maximum number of keys, no column twice) and the row filter is unchanged |
| TableFilters.Includes | Mage.Client/src/main/java/mage/client/table/TablesPanel.java:752-911 | a row passes a regex filter when the matcher finds the pattern in the filter's column, the ignore-list filter when its owner is not listed, an or-filter when it passes one part and an and-filter when it passes every part (definition, no contract) |
| TableFilters.ButtonFilter | Mage.Client/src/main/java/mage/client/table/TablesPanel.java:755-839 | each button's filter: its regular expression on its category's column; the "finished" button has none (definition, no contract) |
| TableFilters.ButtonFilterShape | Mage.Client/src/main/java/mage/client/table/TablesPanel.java:755-839 | exactly the "finished" button has no filter; every other filter is a regular expression on the column of the button's category |
| TableFilters.CategoryButtonsPartition | Mage.Client/src/main/java/mage/client/table/TablesPanel.java:753-840 | each button is checked in exactly one category, the one it belongs to |
| TableFilters.CollectedCollects | Mage.Client/src/main/java/mage/client/table/TablesPanel.java:754-840 | visiting buttons one after another yields a list that holds exactly the filters of the selected buttons among those visited |
| TableFilters.CollectsStep | Mage.Client/src/main/java/mage/client/table/TablesPanel.java:755-757 | visiting one more button adds exactly that button's filter, when it is selected |
| TableFilters.StepListed | Mage.Client/src/main/java/mage/client/table/TablesPanel.java:755-757 | every filter on the extended list belongs to a selected, visited button |
| TableFilters.StepFound | Mage.Client/src/main/java/mage/client/table/TablesPanel.java:755-757 | every selected, visited button's filter is on the extended list |
| TableFilters.AddIfSelected | Mage.Client/src/main/java/mage/client/table/TablesPanel.java:755-757 | one `if (button.isSelected()) list.add(filter)` step extends the list as visiting one more button does |
| TableFilters.AlternativesIncludes | Mage.Client/src/main/java/mage/client/table/TablesPanel.java:863-867 | one filter, or the or-filter of several, includes a row exactly when one of the list's filters does |
| TableFilters.CategoryListEmpty | Mage.Client/src/main/java/mage/client/table/TablesPanel.java:856-858 | a category's list is empty exactly when none of its selected buttons has a filter |
| TableFilters.CategoryListMeaning | Mage.Client/src/main/java/mage/client/table/TablesPanel.java:861-897 | a non-empty category list, collapsed to one filter, includes a row exactly when some selected button of the category has a filter the row matches |
| TableFilters.FinishedButtonIsInert | Mage.Client/src/main/java/mage/client/table/TablesPanel.java:754-760 | selecting or clearing the "finished" state button never changes which rows are shown, nor whether the "Nothing" filter is installed |
| TablesPanel.NextMessageIndex | Mage.Client/src/main/java/mage/client/table/TablesPanel.java:1549-1553 | the cursor stays within the messages and moves to (current + 1) mod size |
| TablesPanel.AdvanceMessageAdds | Mage.Client/src/main/java/mage/client/table/TablesPanel.java:1547-1559 | m presses followed by n presses equal m + n presses |
| TablesPanel.AdvanceMessageWithin | Mage.Client/src/main/java/mage/client/table/TablesPanel.java:1547-1559 | before the last message, each press moves the cursor one message on |
| TablesPanel.AdvanceMessageFullCycle | Mage.Client/src/main/java/mage/client/table/TablesPanel.java:1547-1559 | as many presses as there are messages bring the footer back to the same message |
| TablesPanel.StateFilters | Mage.Client/src/main/java/mage/client/table/TablesPanel.java:753-760 | the state list is the category's list: the waiting and active filters of the selected buttons, in that order; "finished" adds none |
| TablesPanel.TypeFilters | Mage.Client/src/main/java/mage/client/table/TablesPanel.java:762-772 | the game-type list is the category's list of selected filters, in button order |
| TablesPanel.FormatFilters | Mage.Client/src/main/java/mage/client/table/TablesPanel.java:774-805 | the format list is the category's list of selected filters, in button order |
| TablesPanel.SkillFilters | Mage.Client/src/main/java/mage/client/table/TablesPanel.java:807-817 | the skill list is the category's list of selected filters, in button order |
| TablesPanel.RatingFilters | Mage.Client/src/main/java/mage/client/table/TablesPanel.java:819-828 | the rating list is the category's list of selected filters, in button order |
| TablesPanel.PasswordFilters | Mage.Client/src/main/java/mage/client/table/TablesPanel.java:830-840 | the password list is the category's list of selected filters, in button order |
| TablesPanel.AddCategory | Mage.Client/src/main/java/mage/client/table/TablesPanel.java:863-867 | an empty list adds nothing to the combined list; a non-empty one adds its single filter or its or-filter |
| TablesPanel.AllOfIncludes | Mage.Client/src/main/java/mage/client/table/TablesPanel.java:905-909 | the installed filter (the only one, or the and-filter of all) includes a row exactly when every filter of the list does |
| TablesPanel.CombinedIncludes | Mage.Client/src/main/java/mage/client/table/TablesPanel.java:861-909 | the combined filter includes a row exactly when each category's alternatives include it and its owner is not on the ignore list |
| TablesPanel.CombinedMeaning | Mage.Client/src/main/java/mage/client/table/TablesPanel.java:856-910 | when no category list is empty, the combined filter includes exactly the rows that Passes describes |
| TablesPanel.CombinedMeaningAll | Mage.Client/src/main/java/mage/client/table/TablesPanel.java:856-910 | the same holds for every row and every regular-expression matcher |
| TablesPanel.CategoryListsNonEmpty | Mage.Client/src/main/java/mage/client/table/TablesPanel.java:856-858 | some category list is empty exactly when some category has no selected button with a filter |
| TablesPanel.RowFilterMeaning | Mage.Client/src/main/java/mage/client/table/TablesPanel.java:856-910 | with nothing selected in some category the filter is "Nothing" on the skill column; otherwise it includes a row exactly when the row matches a selected filter in every category and its owner is not ignored |
| TablesPanel.ComposeRowFilter | Mage.Client/src/main/java/mage/client/table/TablesPanel.java:752-911 | building the lists button by button and combining them gives RowFilterFor of the selection and the ignore list |
| TablesPanel.CombineLists | Mage.Client/src/main/java/mage/client/table/TablesPanel.java:856-910 | the "Nothing" filter when some list is empty, otherwise the and-filter of each list's alternatives and the ignore-list filter |
| TablesPanel.Compose | Mage.Client/src/main/java/mage/client/table/TablesPanel.java:856-910 | the "Nothing" filter exactly when some category list is empty; otherwise an and-filter of six parts, or seven with the ignore-list filter last when the ignore list has names |
| TablesPanel.RowFilterFor | Mage.Client/src/main/java/mage/client/table/TablesPanel.java:752-911 | the installed filter is "Nothing" exactly when some category has no selected button with a filter |
| TablesPanel.TablesPanel.constructor | Mage.Client/src/main/java/mage/client/table/TablesPanel.java:218-463 | no messages yet, cursor at 0, the sorter's initial keys, the footer showing the welcome text that `initComponents` sets at line 1495, and, as `restoreFilters` (line 335) ends by calling `setTableFilter`, the row filter RowFilterFor of the restored selection and ignore list |
| TablesPanel.TablesPanel.ReloadMessages | Mage.Client/src/main/java/mage/client/table/TablesPanel.java:707-727 | the server's list, or an empty one when none comes; cursor at 0; footer shown exactly when the list is non-empty; for a non-empty list the first message is shown and "next" is visible exactly when there are several; the "next" button, which sits in the footer panel, is shown (panel and button visible) exactly when there are two or more messages |
| TablesPanel.TablesPanel.FooterNext | Mage.Client/src/main/java/mage/client/table/TablesPanel.java:1547-1559 | with messages, the cursor moves to the next index mod size and the footer shows that message; without messages nothing changes |
| TablesPanel.TablesPanel.SetTableFilter | Mage.Client/src/main/java/mage/client/table/TablesPanel.java:752-911 | the sorter's row filter becomes RowFilterFor of the selection and the ignore list; its sort keys stay |
| PetraSphinx.FirstEnding | Mage.Sets/src/mage/cards/p/PetraSphinx.java:107-112 | the first round that ends the naming loop: every earlier round is a refusal the player can still answer |
| PetraSphinx.ChosenName | Mage.Sets/src/mage/cards/p/PetraSphinx.java:107-112 | the loop's outcome is decided by the first round that ends it: the name chosen there, or None when the player could no longer respond |
| PetraSphinx.NameACard | Mage.Sets/src/mage/cards/p/PetraSphinx.java:107-112 | the prompt is repeated while the player declines and can still respond; it is asked exactly up to the first ending round, and the result is the name chosen there, or None |
| PetraSphinx.Reveal | Mage.Sets/src/mage/cards/p/PetraSphinx.java:114-121 | the top card leaves the library; it is added to the hand when its name is the chosen one, to the graveyard otherwise, and the other zone stays |
| PetraSphinx.RevealConserves | Mage.Sets/src/mage/cards/p/PetraSphinx.java:114-121 | revealing neither creates nor loses a card: library, hand and graveyard hold the same multiset of cards |
| PetraSphinx.RevealMovesTopCard | Mage.Sets/src/mage/cards/p/PetraSphinx.java:114-121 | exactly the top card leaves the library; it joins the hand exactly when it has the chosen name, and the graveyard exactly when it does not; never both; hand plus graveyard grow by one |
| PetraSphinx.Player.RemoveFromTop | Mage.Sets/src/mage/cards/p/PetraSphinx.java:114-115 | the top card is returned and removed, or nothing when the library is empty; hand and graveyard stay |
| PetraSphinx.Player.MoveToHand | Mage.Sets/src/mage/cards/p/PetraSphinx.java:119 | the card joins the hand; the other zones stay |
| PetraSphinx.Player.MoveToGraveyard | Mage.Sets/src/mage/cards/p/PetraSphinx.java:121 | the card joins the graveyard; the other zones stay |
| PetraSphinx.Apply | Mage.Sets/src/mage/cards/p/PetraSphinx.java:91-132 | a missing controller, source or target gives false with no change; an empty library gives true with no change; giving up on the prompt gives false with no change; otherwise true, and the zones become Reveal of the old zones with the chosen name; only the target's zones change |

## Left out

- Swing: layout, renderers, dialogs, mouse handlers and the `SwingWorker` refresh
  tasks of `TablesPanel`. None of them is part of the logic modelled here.
- Matching a regular expression against a cell (`RowFilter.regexFilter` uses
  `Matcher.find`). It is the parameter `find` of `Includes`, so every result
  holds for any matcher. The filters keep the panel's exact pattern text as
  constants. The skill code and the rated and password marks of the table model
  are not part of this model, so those patterns are named by the level or mark
  they look for.
- `SessionHandler.getServerMessages` and `IgnoreList.ignoreList(serverAddress)`
  read from the network and settings. Their results are parameters of
  `ReloadMessages` and `SetTableFilter`.
- `TableUtil.setActiveFilters`, called by `restoreFilters`, reads the saved button
  selection from the user's preferences. That selection is a parameter of the
  `TablesPanel` constructor. The rest of the constructor (layouts, listeners,
  column widths, timers) only builds the Swing interface and is not modelled.
- `URLHandler.handleMessage` turns links in a message into clickable labels. The
  model's footer text is the message itself.
- `synchronized` blocks: concurrency is not modelled, so each operation is one
  atomic step.
- `TablesPanel.TablesPanel.ReloadMessages`: for an empty list the code hides the
  footer panel but leaves the "next" button's own visibility flag and the footer
  text as they were, and the contract follows the code. The button sits inside
  the footer panel, so the contract still promises that the button is shown
  (panel and button both visible) exactly when there are two or more messages.
- The "finished" state button adds no filter, because the code has no branch for
  it. `FinishedButtonIsInert` states this.
- `RowSorting.DefaultToggle`: `MageTableRowSorter` and Swing's
  `DefaultRowSorter` are not part of this model. The model ASSUMES that
  `MageTableRowSorter` inherits `DefaultRowSorter.toggleSortOrder` unchanged, and
  that this toggle behaves as documented, with the default maximum of three
  keys. `RowSorting.DefaultToggle`, `RowSorting.DefaultToggled`,
  `RowSorting.DefaultToggledShape`, `RowSorting.DefaultToggledTwice` and the
  branch of `RowSorting.ActiveTablesSorter.ToggleSortOrder` for columns other
  than "created" and "seats" all rest on this assumption. Checks that
  `setSortKeys` makes on column indices are not modelled.
- Column indices are a datatype, so a click on a column index outside the model
  cannot be expressed.
- `JavaText.ParseInt`: only ASCII digits and an optional sign are accepted.
  Java's `parseInt` also accepts other Unicode decimal digits.
- A `NumberFormatException` thrown inside the comparator is an `Err` result.
  What the Swing sorter then does with the exception is not modelled.
- `PetraSphinx.NameACard`: requires that the player eventually ends the prompt.
  If a player keeps declining while still able to respond, the Java loop never
  ends, and the model does not describe that run.
- `PetraSphinx.Apply`: has the same requirement whenever the prompt is reached.
  `CardRepository.getNames` (the list of names offered) is not modelled, so any
  string can be named.
- `game.informPlayers` and `Player.revealCards` only show information, and are
  not modelled.
- `Player.moveCards` is modelled as appending the card to the hand or the
  graveyard. Replacement effects, triggers and the order of cards within the
  graveyard belong to engine code outside this model. A null card from
  `removeFromTop` cannot happen once the library is non-empty, and the model
  keeps the branch without relying on it.
- The other cards, tokens, the tournament type and the engine-driven scenario in the
  repository are outside this model. They are constant data, or compositions of
  engine classes that are not part of this model.
