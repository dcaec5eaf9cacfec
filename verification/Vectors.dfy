/** The vector table: parallel arrays with an index, and the map they stand for. */
module Vectors {
  import opened Chains
  import opened Wrappers
  import opened Octets
  import opened Knowledge

  const DIMENSIONS := 512
  const BLOB_BYTES := 4 + DIMENSIONS

  type Int8 = x: int | -128 <= x < 128

  /** A quantized vector: its scale, as the four bytes of a float, and its values. */
  datatype Vector = Vector(scale: seq<Byte>, values: seq<Int8>)

  datatype Row = Row(kind: Kind, superseded: bool, vector: Vector)

  type View = map<Id, Row>

  function SignedByte(b: Byte): Int8 {
    if b < 128 then b else b - 256
  }

  function Decode(blob: Blob): (v: Option<Vector>)
    ensures v.Some? ==> |v.value.values| == DIMENSIONS
  {
    if |blob| != BLOB_BYTES then None
    else Some(Vector(blob[..4], seq(DIMENSIONS, i requires 0 <= i < DIMENSIONS => SignedByte(blob[4 + i]))))
  }

  /** A signed value as one byte, the negative ones above the others. */
  function ByteOf(value: Int8): Byte {
    if value < 0 then value + 256 else value
  }

  /** The stored form: the scale, then the values byte by byte. */
  function Stored(v: Vector): Blob
    requires |v.scale| == 4 && |v.values| == DIMENSIONS
  {
    v.scale + seq(DIMENSIONS, i requires 0 <= i < DIMENSIONS => ByteOf(v.values[i]))
  }

  /** A stored vector is read back as it was: the same scale, and every value in its place. */
  lemma DecodesStored(v: Vector)
    requires |v.scale| == 4 && |v.values| == DIMENSIONS
    ensures Decode(Stored(v)) == Some(v)
  {
    var blob := Stored(v);
    assert blob[..4] == v.scale;
    assert forall i :: 0 <= i < DIMENSIONS ==> SignedByte(blob[4 + i]) == v.values[i];
    assert Decode(blob).value.values == v.values;
  }

  /** Every blob of the length of a stored vector is one, and no other is read. */
  lemma StoredDecodes(blob: Blob)
    ensures |blob| != 516 ==> Decode(blob) == None
    ensures |blob| == 516 ==>
      && Decode(blob).Some? && |Decode(blob).value.scale| == 4 && |Decode(blob).value.values| == 512
      && Stored(Decode(blob).value) == blob
  {
    if |blob| == 516 {
      var v := Decode(blob).value;
      assert forall i :: 0 <= i < DIMENSIONS ==> ByteOf(v.values[i]) == blob[4 + i];
      assert Stored(v) == blob[..4] + blob[4..];
    }
  }

  function Put(view: View, id: Id, row: Option<Row>): View {
    match row
    case Some(r) => view[id := r]
    case None => view - {id}
  }

  function SetRow(kind: Kind, superseded: bool, blob: Blob): Option<Row> {
    match Decode(blob)
    case Some(vector) => Some(Row(kind, superseded, vector))
    case None => None
  }

  function Apply(view: View, change: Change): View {
    match change
    case Set(id, kind, superseded, blob) => Put(view, id, SetRow(kind, superseded, blob))
    case Remove(id) => view - {id}
    case Flag(id, superseded) => if id in view then view[id := view[id].(superseded := superseded)] else view
  }

  function ApplyAll(view: View, changes: seq<Change>): View {
    if changes == [] then view
    else Apply(ApplyAll(view, changes[..|changes| - 1]), changes[|changes| - 1])
  }

  lemma {:induction false} ApplyInTurn(view: View, first: seq<Change>, then_: seq<Change>)
    ensures ApplyAll(view, first + then_) == ApplyAll(ApplyAll(view, first), then_)
    decreases |then_|
  {
    if then_ == [] {
      assert first + then_ == first;
    } else {
      ApplyInTurn(view, first, then_[..|then_| - 1]);
      assert (first + then_)[..|first + then_| - 1] == first + then_[..|then_| - 1];
    }
  }

  // What a change does to one row: it sets it, whatever it was, or only its flag.

  function RowOf(view: View, id: Id): Option<Row> {
    if id in view then Some(view[id]) else None
  }

  function OnRow(row: Option<Row>, id: Id, change: Change): Option<Row> {
    match change
    case Set(i, kind, superseded, blob) => if i == id then SetRow(kind, superseded, blob) else row
    case Remove(i) => if i == id then None else row
    case Flag(i, superseded) => if i == id && row.Some? then Some(row.value.(superseded := superseded)) else row
  }

  function OnRowAll(row: Option<Row>, id: Id, changes: seq<Change>): Option<Row> {
    if changes == [] then row
    else OnRow(OnRowAll(row, id, changes[..|changes| - 1]), id, changes[|changes| - 1])
  }

  lemma {:induction false} RowByRow(view: View, id: Id, changes: seq<Change>)
    ensures RowOf(ApplyAll(view, changes), id) == OnRowAll(RowOf(view, id), id, changes)
  {
    if changes != [] {
      RowByRow(view, id, changes[..|changes| - 1]);
    }
  }

  /** Applied to a row they were applied to already, changes change nothing. */
  lemma {:induction false} RowTwice(row: Option<Row>, id: Id, changes: seq<Change>)
    ensures OnRowAll(OnRowAll(row, id, changes), id, changes) == OnRowAll(row, id, changes)
  {
    RowForms(row, id, changes);
    RowForms(OnRowAll(row, id, changes), id, changes);
  }

  /** Every batch either settles a row, only flags it, or leaves it. */
  datatype Effect = Settles(row: Option<Row>) | Flags(superseded: bool) | Leaves

  function EffectOf(id: Id, changes: seq<Change>): Effect {
    if changes == [] then Leaves
    else
      var before := EffectOf(id, changes[..|changes| - 1]);
      match changes[|changes| - 1]
      case Set(i, kind, superseded, blob) => if i == id then Settles(SetRow(kind, superseded, blob)) else before
      case Remove(i) => if i == id then Settles(None) else before
      case Flag(i, superseded) =>
        if i != id then before
        else match before
          case Settles(row) => Settles(if row.Some? then Some(row.value.(superseded := superseded)) else None)
          case _ => Flags(superseded)
  }

  lemma {:induction false} RowForms(row: Option<Row>, id: Id, changes: seq<Change>)
    ensures OnRowAll(row, id, changes)
      == match EffectOf(id, changes)
         case Settles(r) => r
         case Flags(superseded) => if row.Some? then Some(row.value.(superseded := superseded)) else None
         case Leaves => row
  {
    if changes != [] {
      RowForms(row, id, changes[..|changes| - 1]);
    }
  }

  /** Applying a batch again is harmless. */
  lemma AppliedTwice(view: View, changes: seq<Change>)
    ensures ApplyAll(ApplyAll(view, changes), changes) == ApplyAll(view, changes)
  {
    var once := ApplyAll(view, changes);
    var twice := ApplyAll(once, changes);
    forall id ensures RowOf(twice, id) == RowOf(once, id) {
      RowByRow(once, id, changes);
      RowByRow(view, id, changes);
      RowTwice(RowOf(view, id), id, changes);
    }
    SameRows(once, twice);
  }

  lemma SameRows(a: View, b: View)
    requires forall id :: RowOf(a, id) == RowOf(b, id)
    ensures a == b
  {
    forall id ensures id in a <==> id in b {
      assert RowOf(a, id) == RowOf(b, id);
    }
    forall id | id in a ensures a[id] == b[id] {
      assert RowOf(a, id) == RowOf(b, id);
    }
  }

  // The table.

  /** Row `r` of row-major values. */
  function Slice(values: seq<Int8>, r: nat): seq<Int8>
    requires (r + 1) * DIMENSIONS <= |values|
  {
    values[r * DIMENSIONS..(r + 1) * DIMENSIONS]
  }

  function Overwritten(values: seq<Int8>, row: nat, fresher: seq<Int8>): (after: seq<Int8>)
    requires (row + 1) * DIMENSIONS <= |values| && |fresher| == DIMENSIONS
    ensures |after| == |values|
  {
    values[..row * DIMENSIONS] + fresher + values[(row + 1) * DIMENSIONS..]
  }

  lemma SliceOverwritten(values: seq<Int8>, row: nat, fresher: seq<Int8>, r: nat)
    requires (row + 1) * DIMENSIONS <= |values| && |fresher| == DIMENSIONS && (r + 1) * DIMENSIONS <= |values|
    ensures Slice(Overwritten(values, row, fresher), r) == if r == row then fresher else Slice(values, r)
  {
    var after := Overwritten(values, row, fresher);
    forall i | 0 <= i < DIMENSIONS
      ensures Slice(after, r)[i] == if r == row then fresher[i] else Slice(values, r)[i]
    {
      assert Slice(after, r)[i] == after[r * DIMENSIONS + i];
    }
  }

  lemma SliceOfPrefix(values: seq<Int8>, longer: seq<Int8>, r: nat)
    requires (r + 1) * DIMENSIONS <= |values| <= |longer| && longer[..|values|] == values
    ensures Slice(longer, r) == Slice(values, r)
  {
    forall i | 0 <= i < DIMENSIONS ensures Slice(longer, r)[i] == Slice(values, r)[i] {
      assert longer[..|values|][r * DIMENSIONS + i] == values[r * DIMENSIONS + i];
    }
  }

  lemma SliceOfEnd(values: seq<Int8>, more: seq<Int8>, r: nat)
    requires |values| == r * DIMENSIONS && |more| == DIMENSIONS
    ensures |values + more| == (r + 1) * DIMENSIONS && Slice(values + more, r) == more
  {
  }

  /** `Vec::swap_remove`: the last element takes the place of the one that goes. */
  function SwapRemove<T>(s: seq<T>, row: nat): (after: seq<T>)
    requires row < |s|
    ensures |after| == |s| - 1
    ensures forall r :: 0 <= r < |s| - 1 ==> after[r] == if r == row then s[|s| - 1] else s[r]
  {
    s[row := s[|s| - 1]][..|s| - 1]
  }

  /** The values without their last row, which has moved to `row`. */
  function RowsWithout(values: seq<Int8>, row: nat, last: nat): (after: seq<Int8>)
    requires row <= last && |values| == (last + 1) * DIMENSIONS
    ensures |after| == last * DIMENSIONS
  {
    (if row == last then values else Overwritten(values, row, Slice(values, last)))[..last * DIMENSIONS]
  }

  lemma RowsWithoutSlices(values: seq<Int8>, row: nat, last: nat)
    requires row <= last && |values| == (last + 1) * DIMENSIONS
    ensures forall r: nat :: r < last ==>
      Slice(RowsWithout(values, row, last), r) == if r == row then Slice(values, last) else Slice(values, r)
  {
    forall r: nat | r < last
      ensures Slice(RowsWithout(values, row, last), r) == if r == row then Slice(values, last) else Slice(values, r)
    {
      if row == last {
        SliceOfPrefix(RowsWithout(values, row, last), values, r);
      } else {
        var moved := Overwritten(values, row, Slice(values, last));
        SliceOfPrefix(moved[..last * DIMENSIONS], moved, r);
        SliceOverwritten(values, row, Slice(values, last), r);
      }
    }
  }

  /** The table's lists, as values. */
  datatype Lists = Lists(
    ids: seq<Id>, kinds: seq<Kind>, superseded: seq<bool>, scales: seq<seq<Byte>>, values: seq<Int8>,
    rows: map<Id, nat>)

  /** `rows` says where each id is. */
  ghost predicate Indexed(ids: seq<Id>, rows: map<Id, nat>) {
    && (forall r :: 0 <= r < |ids| ==> ids[r] in rows && rows[ids[r]] == r)
    && (forall id :: id in rows ==> rows[id] < |ids| && ids[rows[id]] == id)
  }

  /** One row per id, in each list. */
  ghost predicate Aligned(l: Lists) {
    && |l.kinds| == |l.ids| && |l.superseded| == |l.ids| && |l.scales| == |l.ids|
    && |l.values| == |l.ids| * DIMENSIONS
    && Indexed(l.ids, l.rows)
  }

  ghost function RowAt(l: Lists, r: nat): Row
    requires Aligned(l) && r < |l.ids|
  {
    Row(l.kinds[r], l.superseded[r], Vector(l.scales[r], Slice(l.values, r)))
  }

  /** The map the rows stand for. */
  ghost function ContentsOf(l: Lists): View
    requires Aligned(l)
  {
    map id | id in l.rows :: RowAt(l, l.rows[id])
  }

  function Removed(l: Lists, row: nat): Lists
    requires row < |l.ids| && |l.kinds| == |l.ids| && |l.superseded| == |l.ids| && |l.scales| == |l.ids|
    requires |l.values| == |l.ids| * DIMENSIONS
  {
    var last := |l.ids| - 1;
    Lists(SwapRemove(l.ids, row), SwapRemove(l.kinds, row), SwapRemove(l.superseded, row), SwapRemove(l.scales, row),
          RowsWithout(l.values, row, last),
          if row == last then l.rows - {l.ids[row]} else (l.rows - {l.ids[row]})[l.ids[last] := row])
  }

  lemma RemovedIndexed(ids: seq<Id>, rows: map<Id, nat>, row: nat)
    requires Indexed(ids, rows) && row < |ids|
    ensures Indexed(SwapRemove(ids, row),
      if row == |ids| - 1 then rows - {ids[row]} else (rows - {ids[row]})[ids[|ids| - 1] := row])
  {
  }

  lemma RemovedAligned(l: Lists, row: nat)
    requires Aligned(l) && row < |l.ids|
    ensures Aligned(Removed(l, row))
  {
    RemovedIndexed(l.ids, l.rows, row);
    hide Indexed;
  }

  lemma RemovedAt(l: Lists, row: nat, r: nat)
    requires Aligned(l) && row < |l.ids| && r < |l.ids| - 1 && Aligned(Removed(l, row))
    ensures RowAt(Removed(l, row), r) == RowAt(l, if r == row then |l.ids| - 1 else r)
  {
    hide Indexed, Slice, RowsWithout, SwapRemove;
    RowsWithoutSlices(l.values, row, |l.ids| - 1);
  }

  /** Where an id's row went. */
  lemma RemovedFrom(l: Lists, row: nat, id: Id)
    requires Aligned(l) && row < |l.ids| && Aligned(Removed(l, row)) && id in Removed(l, row).rows
    ensures id in l.rows && id != l.ids[row]
    ensures var r := Removed(l, row).rows[id]; r < |l.ids| - 1 && l.rows[id] == if r == row then |l.ids| - 1 else r
  {
    hide RowsWithout, Slice;
  }

  lemma RemovedIds(l: Lists, row: nat)
    requires Aligned(l) && row < |l.ids|
    ensures Removed(l, row).rows.Keys == l.rows.Keys - {l.ids[row]}
  {
    hide RowsWithout, Slice, SwapRemove;
  }

  lemma RemovedRow(l: Lists, row: nat)
    requires Aligned(l) && row < |l.ids|
    ensures Aligned(Removed(l, row)) && ContentsOf(Removed(l, row)) == ContentsOf(l) - {l.ids[row]}
  {
    hide Indexed, RowAt, RowsWithout, Slice, SwapRemove;
    var after := Removed(l, row);
    RemovedAligned(l, row);
    RemovedIds(l, row);
    forall id | id in after.rows
      ensures id in l.rows && after.rows[id] < |after.ids| && l.rows[id] < |l.ids|
      ensures RowAt(after, after.rows[id]) == RowAt(l, l.rows[id])
    {
      RemovedFrom(l, row, id);
      RemovedAt(l, row, after.rows[id]);
    }
  }

  /** Row `row` with another vector. */
  function Rewritten(l: Lists, row: nat, r: Row): Lists
    requires row < |l.ids| && |l.kinds| == |l.ids| && |l.superseded| == |l.ids| && |l.scales| == |l.ids|
    requires |l.values| == |l.ids| * DIMENSIONS && |r.vector.values| == DIMENSIONS
  {
    l.(kinds := l.kinds[row := r.kind], superseded := l.superseded[row := r.superseded],
       scales := l.scales[row := r.vector.scale], values := Overwritten(l.values, row, r.vector.values))
  }

  lemma RewrittenRow(l: Lists, row: nat, r: Row)
    requires Aligned(l) && row < |l.ids| && |r.vector.values| == DIMENSIONS
    ensures Aligned(Rewritten(l, row, r)) && ContentsOf(Rewritten(l, row, r)) == ContentsOf(l)[l.ids[row] := r]
  {
    hide Slice, Overwritten;
    var after := Rewritten(l, row, r);
    forall i: nat | i < |l.ids| ensures RowAt(after, i) == if i == row then r else RowAt(l, i) {
      SliceOverwritten(l.values, row, r.vector.values, i);
    }
    hide RowAt;
  }

  /** One more row, for an id the table does not have. */
  function Appended(l: Lists, id: Id, r: Row): Lists {
    Lists(l.ids + [id], l.kinds + [r.kind], l.superseded + [r.superseded], l.scales + [r.vector.scale],
          l.values + r.vector.values, l.rows[id := |l.ids|])
  }

  lemma AppendedRow(l: Lists, id: Id, r: Row)
    requires Aligned(l) && id !in l.rows && |r.vector.values| == DIMENSIONS
    ensures Aligned(Appended(l, id, r)) && ContentsOf(Appended(l, id, r)) == ContentsOf(l)[id := r]
  {
    var after := Appended(l, id, r);
    assert Indexed(after.ids, after.rows);
    forall i: nat | i < |l.ids| ensures RowAt(after, i) == RowAt(l, i) {
      SliceOfPrefix(l.values, after.values, i);
    }
    SliceOfEnd(l.values, r.vector.values, |l.ids|);
    assert RowAt(after, |l.ids|) == r;
    hide RowAt, Slice;
  }

  class Table {
    var ids: seq<Id>
    var kinds: seq<Kind>
    var superseded: seq<bool>
    var scales: seq<seq<Byte>>
    var values: seq<Int8>
    var rows: map<Id, nat>

    ghost function All(): Lists
      reads this
    {
      Lists(ids, kinds, superseded, scales, values, rows)
    }

    ghost predicate Valid()
      reads this
    {
      Aligned(All())
    }

    ghost function Contents(): View
      requires Valid()
      reads this
    {
      ContentsOf(All())
    }

    constructor ()
      ensures Valid() && Contents() == map[]
    {
      ids, kinds, superseded, scales, values, rows := [], [], [], [], [], map[];
    }

    method SetVector(id: Id, kind: Kind, flag: bool, blob: Blob)
      requires Valid()
      modifies this
      ensures Valid() && Contents() == Put(old(Contents()), id, SetRow(kind, flag, blob))
    {
      var decoded := Decode(blob);
      if decoded.None? {
        RemoveRow(id);
        return;
      }
      var scale, fresher := decoded.value.scale, decoded.value.values;
      ghost var before := All();
      ghost var newRow := Row(kind, flag, decoded.value);
      if id in rows {
        var row := rows[id];
        kinds := kinds[row := kind];
        superseded := superseded[row := flag];
        scales := scales[row := scale];
        WriteSlots(row, fresher);
        RewrittenRow(before, row, newRow);
        assert All() == Rewritten(before, row, newRow);
      } else {
        rows := rows[id := |ids|];
        ids := ids + [id];
        kinds := kinds + [kind];
        superseded := superseded + [flag];
        scales := scales + [scale];
        values := values + fresher;
        AppendedRow(before, id, newRow);
        assert All() == Appended(before, id, newRow);
      }
    }

    /** Writes a row's values slot by slot. */
    method WriteSlots(row: nat, fresher: seq<Int8>)
      requires (row + 1) * DIMENSIONS <= |values| && |fresher| == DIMENSIONS
      modifies this`values
      ensures values == Overwritten(old(values), row, fresher)
    {
      ghost var before := values;
      var slot := 0;
      while slot < DIMENSIONS
        invariant 0 <= slot <= DIMENSIONS
        invariant values == before[..row * DIMENSIONS] + fresher[..slot] + before[row * DIMENSIONS + slot..]
      {
        values := values[row * DIMENSIONS + slot := fresher[slot]];
        slot := slot + 1;
      }
    }

    /** The last row moves into the place of the one that goes. */
    method RemoveRow(id: Id)
      requires Valid()
      modifies this
      ensures Valid() && Contents() == old(Contents()) - {id}
    {
      if id !in rows {
        return;
      }
      var row, last := rows[id], |ids| - 1;
      var index := rows - {id};
      if row != last {
        index := index[ids[last] := row];
      }
      assert ids[row] == id;
      RemovedRow(All(), row);
      hide Indexed, ContentsOf, SwapRemove, RowsWithout;
      assert Removed(All(), row).rows == index;
      ids, kinds, superseded, scales, values, rows :=
        SwapRemove(ids, row), SwapRemove(kinds, row), SwapRemove(superseded, row), SwapRemove(scales, row),
        RowsWithout(values, row, last), index;
    }

    method ApplyChange(change: Change)
      requires Valid()
      modifies this
      ensures Valid() && Contents() == Apply(old(Contents()), change)
    {
      match change
      case Set(id, kind, flag, blob) => SetVector(id, kind, flag, blob);
      case Remove(id) => RemoveRow(id);
      case Flag(id, flag) =>
        if id in rows {
          superseded := superseded[rows[id] := flag];
        }
    }

    method ApplyChanges(changes: seq<Change>)
      requires Valid()
      modifies this
      ensures Valid() && Contents() == ApplyAll(old(Contents()), changes)
    {
      for i := 0 to |changes|
        invariant Valid() && Contents() == ApplyAll(old(Contents()), changes[..i])
      {
        ApplyChange(changes[i]);
        assert changes[..i + 1][..i] == changes[..i];
      }
      assert changes[..|changes|] == changes;
    }
  }
}
