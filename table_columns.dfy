/** The columns of the lobby's active-table list that the panel refers to by name. */
module TableColumns {

  datatype Column =
    | Status | GameType | DeckType | Skill | Rating | Password | Owner | Created | Seats
    | OtherColumn(index: nat)  // a column the panel never names (icon, table name, ...)
}
