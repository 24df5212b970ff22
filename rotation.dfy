/**
 * The data-service helpers that hold logic of their own: the cleaning
 * rotation's day arithmetic and weekly advance, and the renaming of the
 * shopping list's `addedBy` field to the table's `added_by` column and back.
 * Instants are milliseconds since the epoch, passed in by the caller.
 */
module Api {
  import opened Wrappers

  const MillisPerDay: int := 1000 * 60 * 60 * 24
  const RotationDays: int := 7

  // ---------------------------------------------------------------------------
  // Rotation days
  // ---------------------------------------------------------------------------

  /** `Math.floor((today - start) / msPerDay)`: whole days, rounded down, even when negative. */
  function DaysPassed(startMs: int, nowMs: int): (d: int)
    ensures MillisPerDay * d <= nowMs - startMs < MillisPerDay * (d + 1)
  {
    (nowMs - startMs) / MillisPerDay
  }

  /** The quotient JavaScript's `%` goes with: the division rounded toward zero. */
  function JsQuot(a: int, b: int): int
    requires b > 0
  {
    if a >= 0 then a / b else -((-a) / b)
  }

  /** JavaScript's `a % b` for `b > 0`: truncating, so the result takes the sign of `a`. */
  function JsRem(a: int, b: int): (r: int)
    requires b > 0
    ensures 0 <= a ==> 0 <= r < b
    ensures a < 0 ==> -b < r <= 0
    ensures a == b * JsQuot(a, b) + r
  {
    if a >= 0 then a % b
    else
      var q := (-a) / b;
      assert -a == b * q + (-a) % b;
      assert b * (-q) == -(b * q);
      -((-a) % b)
  }

  /** `getDaysRemaining`: seven minus the days passed, counted within the current week. */
  function DaysRemaining(daysPassed: int): (r: int)
    ensures daysPassed >= 0 ==> 1 <= r <= RotationDays
    ensures daysPassed < 0 ==> RotationDays <= r < 2 * RotationDays
  {
    RotationDays - JsRem(daysPassed, RotationDays)
  }

  /**
   * Once the start date has passed, between one and seven days remain, and
   * exactly seven on the day a new week starts.
   */
  lemma DaysRemainingInWeek(daysPassed: int)
    requires daysPassed >= 0
    ensures 1 <= DaysRemaining(daysPassed) <= RotationDays
    ensures DaysRemaining(daysPassed) == RotationDays <==> daysPassed % RotationDays == 0
  {
  }

  /** Before the start date the truncating remainder gives seven or more days. */
  lemma DaysRemainingBeforeStart(daysPassed: int)
    requires daysPassed < 0
    ensures RotationDays <= DaysRemaining(daysPassed) < 2 * RotationDays
    ensures DaysRemaining(daysPassed) > RotationDays <==> daysPassed % RotationDays != 0
  {
  }

  /** A start date one day in the future shows eight days left in a seven-day rotation. */
  lemma DaysRemainingOverflowExample()
    ensures DaysRemaining(DaysPassed(MillisPerDay, 0)) == 8
  {
  }

  /** The remaining days with a floored remainder, which stays in 1..7 for every start date. */
  function DaysRemainingFloored(daysPassed: int): (r: int)
    ensures 1 <= r <= RotationDays
    ensures daysPassed >= 0 ==> r == DaysRemaining(daysPassed)
    ensures (daysPassed + r) % RotationDays == 0
  {
    RotationDays - daysPassed % RotationDays
  }

  // ---------------------------------------------------------------------------
  // Weekly advance
  // ---------------------------------------------------------------------------

  /** The single rotation-state row; the start date is already converted to milliseconds. */
  datatype RotationState = RotationState(id: int, currentUserId: Option<string>, rotationStartMs: int, updatedAt: string)

  /** The rotation service as seen from the page: how often it has asked the server to advance. */
  class RotationService {
    var advanceCalls: nat

    constructor()
      ensures advanceCalls == 0
    {
      advanceCalls := 0;
    }

    /** `advanceRotation`: one request to the server. */
    method AdvanceRotation()
      modifies this
      ensures advanceCalls == old(advanceCalls) + 1
    {
      advanceCalls := advanceCalls + 1;
    }

    /**
     * `checkAndAdvanceIfNeeded`: with no rotation state nothing happens;
     * otherwise the rotation advances exactly when seven or more days have
     * passed since its start.
     */
    method CheckAndAdvanceIfNeeded(state: Option<RotationState>, nowMs: int) returns (advanced: bool)
      modifies this
      ensures state.None? ==> !advanced
      ensures state.Some? ==> (advanced <==> DaysPassed(state.value.rotationStartMs, nowMs) >= RotationDays)
      ensures advanceCalls == old(advanceCalls) + (if advanced then 1 else 0)
    {
      if state.None? {
        return false;
      }
      var daysPassed := DaysPassed(state.value.rotationStartMs, nowMs);
      if daysPassed >= RotationDays {
        AdvanceRotation();
        return true;
      }
      return false;
    }
  }

  /** Seven days after the start is exactly the moment the rotation becomes due. */
  lemma DueAfterAWeek(startMs: int, nowMs: int)
    ensures DaysPassed(startMs, nowMs) >= RotationDays <==> nowMs - startMs >= RotationDays * MillisPerDay
  {
  }

  // ---------------------------------------------------------------------------
  // Shopping list rows
  // ---------------------------------------------------------------------------

  /** A shopping item as the pages use it. */
  datatype ShoppingItem = ShoppingItem(id: int, item: string, quantity: string, purchased: bool, addedBy: string)

  /** A shopping item before the database has given it an id. */
  datatype NewShoppingItem = NewShoppingItem(item: string, quantity: string, purchased: bool, addedBy: string)

  /** A row of the `shopping_list` table. */
  datatype ShoppingRow = ShoppingRow(id: int, item: string, quantity: string, purchased: bool, added_by: string, flat_code: string)

  /** The object inserted by `create`. */
  datatype InsertPayload = InsertPayload(item: string, quantity: string, purchased: bool, added_by: string, flat_code: string)

  /** The object written by `update`: the four editable columns and no id. */
  datatype UpdatePayload = UpdatePayload(item: string, quantity: string, purchased: bool, added_by: string)

  /** The row-to-item mapping of `getAll` and of `create`'s result: `added_by` becomes `addedBy`. */
  function FromRow(row: ShoppingRow): (s: ShoppingItem)
    ensures s.id == row.id && s.item == row.item && s.quantity == row.quantity
    ensures s.purchased == row.purchased && s.addedBy == row.added_by
  {
    ShoppingItem(row.id, row.item, row.quantity, row.purchased, row.added_by)
  }

  /** `create`'s payload; without a flat code the call fails before anything is sent. */
  function CreatePayload(s: NewShoppingItem, flatCode: Option<string>): (r: Option<InsertPayload>)
    ensures r.None? <==> flatCode.None? || flatCode.value == ""
    ensures r.Some? ==> r.value == InsertPayload(s.item, s.quantity, s.purchased, s.addedBy, flatCode.value)
  {
    if flatCode.None? || flatCode.value == "" then None
    else Some(InsertPayload(s.item, s.quantity, s.purchased, s.addedBy, flatCode.value))
  }

  /** The row the database stores for an insert, under the id it assigns. */
  function Inserted(p: InsertPayload, id: int): ShoppingRow {
    ShoppingRow(id, p.item, p.quantity, p.purchased, p.added_by, p.flat_code)
  }

  /** `update`'s payload. */
  function UpdatePayloadOf(s: ShoppingItem): (p: UpdatePayload)
    ensures p.item == s.item && p.quantity == s.quantity && p.purchased == s.purchased && p.added_by == s.addedBy
  {
    UpdatePayload(s.item, s.quantity, s.purchased, s.addedBy)
  }

  /** The row after the database applies an update payload; id and flat code are kept. */
  function Updated(row: ShoppingRow, p: UpdatePayload): ShoppingRow {
    ShoppingRow(row.id, p.item, p.quantity, p.purchased, p.added_by, row.flat_code)
  }

  /** Creating an item and mapping the stored row back gives the item with its new id. */
  lemma CreateRoundTrip(s: NewShoppingItem, flatCode: string, id: int)
    requires flatCode != ""
    ensures var p := CreatePayload(s, Some(flatCode));
      p.Some? && FromRow(Inserted(p.value, id)) == ShoppingItem(id, s.item, s.quantity, s.purchased, s.addedBy)
  {
  }

  /** Updating a row and reading it back gives the edited item under the row's own id. */
  lemma UpdateRoundTrip(row: ShoppingRow, s: ShoppingItem)
    ensures FromRow(Updated(row, UpdatePayloadOf(s))) == s.(id := row.id)
  {
  }
}
