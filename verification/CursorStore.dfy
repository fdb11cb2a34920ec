/** The `chain_cursors` table: how far each watcher has scanned. */
module CursorStore {
  import opened Domain

  /** `at` is NULL until a cursor was saved. */
  datatype Cursor = Cursor(height: int, at: Option<int>)

  const UNSET: Cursor := Cursor(0, None)

  class CursorStore {
    var rows: map<Chain, Cursor>

    constructor ()
      ensures rows == map[]
    {
      rows := map[];
    }

    /** What the next GetCursor returns. */
    function At(c: Chain): Cursor
      reads this
    {
      if c in rows then rows[c] else UNSET
    }

    /** Reads the cursor, inserting the default row on first use. */
    method GetCursor(c: Chain, fault: bool) returns (r: Option<Cursor>)
      modifies this
      ensures r == if fault then None else Some(old(At(c)))
      ensures forall d :: At(d) == old(At(d))
      ensures !fault ==> c in rows
      ensures !fault && c !in old(rows) ==> r == Some(Cursor(0, None))
    {
      if fault {
        return None;
      }
      if c !in rows {
        rows := rows[c := UNSET];
      }
      return Some(rows[c]);
    }

    method SetCursor(c: Chain, height: int, at: int, fault: bool) returns (saved: bool)
      modifies this
      ensures saved <==> !fault
      ensures At(c) == if saved then Cursor(height, Some(at)) else old(At(c))
      ensures forall d :: d != c ==> At(d) == old(At(d))
    {
      if fault {
        return false;
      }
      rows := rows[c := Cursor(height, Some(at))];
      return true;
    }
  }
}
