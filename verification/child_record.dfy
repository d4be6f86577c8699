/** The mutators of the in-memory working record (`ChildData`): the cell holds
    the record of the detected avatar, or nothing. Setters do nothing to an
    empty cell, and getters read an empty cell as the default record. */
module ChildRecord {
  import opened Wrappers
  import opened Decimal
  import opened Gestation
  import opened OscServer

  /** The working-record cell. */
  type Cell = Option<ChildInfo>

  const ChildCountAddress: string := "/avatar/parameters/ChildCount"

  /** The message `set_child_count(v)` sends, whatever the cell holds. */
  function ChildCountMessage(v: U8): OscMessage {
    OscMessage(ChildCountAddress, [Int(v)])
  }

  /** `get_child_count`: 0 for an empty cell. */
  function CountOf(cell: Cell): (n: U8)
    ensures cell.None? ==> n == 0
    ensures cell.Some? ==> n == cell.value.childCount
  {
    cell.UnwrapOr(DefaultChildInfo).childCount
  }

  /** `get_conception_time`: absent for an empty cell. */
  function ConceptionOf(cell: Cell): (t: Option<int>)
    ensures cell.None? ==> t.None?
    ensures cell.Some? ==> t == cell.value.conceptionTime
  {
    cell.UnwrapOr(DefaultChildInfo).conceptionTime
  }

  /** The cell after a mutation and the messages the mutation sent. */
  datatype CellUpdate = CellUpdate(cell: Cell, sent: seq<OscMessage>)

  /** `child_counter(v)`: a count above the current one replaces it (and is
      announced), stamping the conception time with now only if none was set;
      a count at or below the current one changes nothing. */
  function ChildCounter(cell: Cell, v: U8, now: int): (r: CellUpdate)
    ensures v <= CountOf(cell) ==> r == CellUpdate(cell, [])
    ensures v > CountOf(cell) ==> r.sent == [ChildCountMessage(v)]
    ensures r.cell.Some? <==> cell.Some?
    ensures cell.Some? ==> r.cell.value.childCount == (if v > cell.value.childCount then v else cell.value.childCount)
    ensures cell.Some? && cell.value.conceptionTime.Some? ==> r.cell.value.conceptionTime == cell.value.conceptionTime
    ensures cell.Some? && cell.value.conceptionTime.None? ==>
              r.cell.value.conceptionTime == (if v > cell.value.childCount then Some(now) else None)
    ensures cell.Some? ==>
              r.cell.value.gestationTime == cell.value.gestationTime && r.cell.value.gestation == cell.value.gestation
  {
    if v > CountOf(cell) then
      var counted := SetChildCount(cell, v);
      var stamped := if ConceptionOf(counted.cell).None? then SetConceptionTime(counted.cell, now) else counted.cell;
      CellUpdate(stamped, counted.sent)
    else CellUpdate(cell, [])
  }

  /** `set_child_count(v)`: stores v in a record, and announces it either way. */
  function SetChildCount(cell: Cell, v: U8): (r: CellUpdate)
    ensures r.sent == [ChildCountMessage(v)]
    ensures r.cell == if cell.Some? then Some(cell.value.(childCount := v)) else None
  {
    match cell
    case Some(c) => CellUpdate(Some(c.(childCount := v)), [ChildCountMessage(v)])
    case None => CellUpdate(None, [ChildCountMessage(v)])
  }

  /** `set_conception_time(t)`. */
  function SetConceptionTime(cell: Cell, t: int): (r: Cell)
    ensures r == if cell.Some? then Some(cell.value.(conceptionTime := Some(t))) else None
  {
    match cell
    case Some(c) => Some(c.(conceptionTime := Some(t)))
    case None => None
  }

  /** `clear_conception_time()`. */
  function ClearConceptionTime(cell: Cell): (r: Cell)
    ensures r == if cell.Some? then Some(cell.value.(conceptionTime := None)) else None
  {
    match cell
    case Some(c) => Some(c.(conceptionTime := None))
    case None => None
  }

  /** `set_gestation_time(v)`. */
  function SetGestationTime(cell: Cell, v: real): (r: Cell)
    ensures r.Some? <==> cell.Some?
    ensures r.Some? ==> r.value == cell.value.(gestationTime := v)
  {
    match cell
    case Some(c) => Some(c.(gestationTime := v))
    case None => None
  }

  /** `set_gestation_type(raw)`: the unit with discriminant raw, Hours for an
      out-of-range raw value; only the unit changes, and an empty cell stays
      empty. */
  function SetGestationType(cell: Cell, raw: U8): (r: Cell)
    ensures cell.None? ==> r.None?
    ensures cell.Some? ==> r.Some? && r.value == cell.value.(gestation := r.value.gestation)
    ensures cell.Some? && raw > 4 ==> r.value.gestation == Hours
    ensures cell.Some? && raw <= 4 ==> ToU8(r.value.gestation) == raw
  {
    match cell
    case Some(c) =>
      var unit := match TryFromU8(raw) case Success(t) => t case Failure(_) => Hours;
      Some(c.(gestation := unit))
    case None => None
  }

  /** The count just set is the count read back, and setting the old count
      again restores the cell. */
  lemma SetChildCountRestores(cell: Cell, v: U8)
    ensures CountOf(SetChildCount(cell, v).cell) == if cell.Some? then v else 0
    ensures SetChildCount(SetChildCount(cell, v).cell, CountOf(cell)).cell == cell
  {
  }

  /** The conception time just set is the one read back; a clear forgets
      whatever was set before it, and a set overrides a clear; neither
      touches the count. */
  lemma ConceptionTimeSetters(cell: Cell, t: int)
    ensures ConceptionOf(SetConceptionTime(cell, t)) == if cell.Some? then Some(t) else None
    ensures ConceptionOf(ClearConceptionTime(cell)).None?
    ensures ClearConceptionTime(SetConceptionTime(cell, t)) == ClearConceptionTime(cell)
    ensures SetConceptionTime(ClearConceptionTime(cell), t) == SetConceptionTime(cell, t)
    ensures CountOf(SetConceptionTime(cell, t)) == CountOf(cell) && CountOf(ClearConceptionTime(cell)) == CountOf(cell)
  {
  }

  /** On a consistent record, stamping a conception time keeps it consistent
      while there are children, and clearing the conception time together
      with a count of zero (the last child's removal) keeps it consistent. */
  lemma PrimitiveSettersConsistent(c: ChildInfo, t: int)
    requires Consistent(c)
    ensures c.childCount > 0 ==> Consistent(SetConceptionTime(Some(c), t).value)
    ensures Consistent(SetChildCount(ClearConceptionTime(Some(c)), 0).cell.value)
  {
  }

  /** Setting the unit by its discriminant stores exactly that unit. */
  lemma SetGestationTypeRoundTrip(c: ChildInfo, t: GestationType)
    ensures SetGestationType(Some(c), ToU8(t)) == Some(c.(gestation := t))
  {
  }

  /** The outcome of a user-interface button: the record, the messages sent,
      and whether the store is then written. */
  datatype UiUpdate = UiUpdate(record: ChildInfo, sent: seq<OscMessage>, persist: bool)

  /** The largest count the Add Child button reaches. */
  const MaxChildren: nat := 12

  /** The Add Child button: stamps a missing conception time with now (even
      at the limit), then, below 12 children, adds one, announces it and
      saves. */
  function AddChild(c: ChildInfo, now: int): (r: UiUpdate)
    ensures r.record.conceptionTime == if c.conceptionTime.Some? then c.conceptionTime else Some(now)
    ensures c.childCount < MaxChildren ==>
              r.record.childCount == c.childCount + 1 && r.persist && r.sent == [ChildCountMessage(c.childCount + 1)]
    ensures c.childCount >= MaxChildren ==> r.record.childCount == c.childCount && !r.persist && r.sent == []
    ensures r.record.childCount <= if c.childCount > MaxChildren then c.childCount else MaxChildren
    ensures r.record.gestationTime == c.gestationTime && r.record.gestation == c.gestation
  {
    var stamped := if c.conceptionTime.None? then c.(conceptionTime := Some(now)) else c;
    if c.childCount < MaxChildren then
      var counted := SetChildCount(Some(stamped), c.childCount + 1);
      UiUpdate(counted.cell.value, counted.sent, true)
    else UiUpdate(stamped, [], false)
  }

  /** The Remove Child button: nothing at zero; otherwise one child fewer,
      announced and saved, and the conception time is cleared exactly when the
      last child goes. */
  function RemoveChild(c: ChildInfo): (r: UiUpdate)
    ensures c.childCount == 0 ==> r == UiUpdate(c, [], false)
    ensures c.childCount == 1 ==> r.record == c.(childCount := 0, conceptionTime := None)
    ensures c.childCount > 1 ==> r.record == c.(childCount := c.childCount - 1)
    ensures c.childCount > 0 ==> r.persist && r.sent == [ChildCountMessage(c.childCount - 1)]
  {
    if c.childCount != 0 then
      var cleared := if c.childCount == 1 then ClearConceptionTime(Some(c)) else Some(c);
      var counted := SetChildCount(cleared, c.childCount - 1);
      UiUpdate(counted.cell.value, counted.sent, true)
    else UiUpdate(c, [], false)
  }

  /** Below the limit, removing the child just added restores a consistent
      record exactly. */
  lemma RemoveUndoesAdd(c: ChildInfo, now: int)
    requires Consistent(c) && c.childCount < MaxChildren
    ensures RemoveChild(AddChild(c, now).record).record == c
  {
  }

  /** The child-count rule, Add Child, Remove Child and the duration and unit
      setters keep a consistent record consistent. */
  lemma ChildCounterConsistent(cell: Cell, v: U8, now: int)
    requires cell.Some? && Consistent(cell.value)
    ensures Consistent(ChildCounter(cell, v, now).cell.value)
  {
  }

  lemma AddChildConsistent(c: ChildInfo, now: int)
    requires Consistent(c)
    ensures Consistent(AddChild(c, now).record)
  {
  }

  lemma RemoveChildConsistent(c: ChildInfo)
    requires Consistent(c)
    ensures Consistent(RemoveChild(c).record)
  {
  }

  lemma SettersConsistent(c: ChildInfo, raw: U8, v: real)
    requires Consistent(c)
    ensures Consistent(SetGestationType(Some(c), raw).value)
    ensures Consistent(SetGestationTime(Some(c), v).value)
  {
  }
}
