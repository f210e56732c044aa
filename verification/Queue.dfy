/**
 The media queue: one table of (room, position) rows for all rooms. Renumbering moves rows one at a
 time, and the primary key is checked after each move, in whatever order the database visits them.
 */
module Queue {
  import opened Options

  type Rows = map<(string, int), string>

  // ---- the statements ----------------------------------------------------------------------------

  /** One past the largest position of the room; zero for an empty room. */
  predicate IsNext(rows: Rows, room: string, at: int)
  {
    && (forall k | k in rows && k.0 == room :: k.1 < at)
    && (if exists k | k in rows :: k.0 == room then (room, at - 1) in rows else at == 0)
  }

  /** The positions above `position`, each once, in the order the database visits them. */
  ghost predicate IsScan(rows: Rows, room: string, position: int, order: seq<int>)
  {
    && (forall p: int :: p in order <==> p > position && (room, p) in rows)
    && (forall i, j | 0 <= i < j < |order| :: order[i] != order[j])
  }

  function MoveDown(rows: Rows, room: string, p: int): Rows
    requires (room, p) in rows
  {
    (rows - {(room, p)})[(room, p - 1) := rows[(room, p)]]
  }

  /** Moving the visited rows down one by one; None at the first duplicate key. */
  function Renumbered(rows: Rows, room: string, order: seq<int>): Option<Rows>
    decreases |order|
  {
    if order == [] then Some(rows)
    else if (room, order[0]) !in rows || (room, order[0] - 1) in rows then None
    else Renumbered(MoveDown(rows, room, order[0]), room, order[1..])
  }

  datatype Outcome = Removed | NotFound | Conflict

  function OutcomeOf(rows: Rows, room: string, position: int, order: seq<int>): Outcome
  {
    if (room, position) !in rows then NotFound
    else if Renumbered(rows - {(room, position)}, room, order).None? then Conflict
    else Removed
  }

  function AfterRemove(rows: Rows, room: string, position: int, order: seq<int>): Rows
  {
    if OutcomeOf(rows, room, position, order).Removed?
    then Renumbered(rows - {(room, position)}, room, order).value else rows
  }

  class QueueRepo {
    var rows: Rows

    method MaxPosition(room: string) returns (max: Option<int>)
      ensures max.None? ==> forall k | k in rows :: k.0 != room
      ensures max.Some? ==> (room, max.value) in rows && forall k | k in rows && k.0 == room :: k.1 <= max.value
    {
      max := None;
      var left := rows.Keys;
      while left != {}
        invariant left <= rows.Keys
        invariant max.None? ==> forall k | k in rows.Keys - left :: k.0 != room
        invariant max.Some? ==> (room, max.value) in rows
        invariant max.Some? ==> forall k | k in rows.Keys - left && k.0 == room :: k.1 <= max.value
        decreases |left|
      {
        var k :| k in left;
        left := left - {k};
        if k.0 == room && (max.None? || max.value < k.1) {
          assert k == (room, k.1);
          max := Some(k.1);
        }
      }
    }

    method Add(room: string, media: string) returns (at: int)
      modifies this
      ensures IsNext(old(rows), room, at) && rows == old(rows)[(room, at) := media]
      ensures (room, at) !in old(rows)
    {
      var max := MaxPosition(room);
      at := (if max.Some? then max.value else -1) + 1;
      rows := rows[(room, at) := media];
    }

    /** The order is the database's choice among the rows to move. An error leaves the table as it was. */
    method Remove(room: string, position: int, order: seq<int>) returns (r: Outcome)
      requires IsScan(rows, room, position, order)
      modifies this
      ensures r == OutcomeOf(old(rows), room, position, order)
      ensures rows == AfterRemove(old(rows), room, position, order)
      ensures !r.Removed? ==> rows == old(rows)
    {
      var tx := rows - {(room, position)};
      if (room, position) !in rows {
        return NotFound;
      }
      ghost var start := tx;
      for i := 0 to |order|
        invariant Renumbered(tx, room, order[i..]) == Renumbered(start, room, order)
        invariant forall j | i <= j < |order| :: (room, order[j]) in tx
      {
        var p := order[i];
        assert order[i..][0] == p && order[i..][1..] == order[i + 1..];
        if (room, p - 1) in tx {
          return Conflict;
        }
        tx := MoveDown(tx, room, p);
      }
      rows := tx;
      return Removed;
    }
  }

  // ---- the sequence it stands for ----------------------------------------------------------------

  /** The room's rows are exactly the items of `q` at positions 0 to n-1. */
  ghost predicate Holds(rows: Rows, room: string, q: seq<string>)
  {
    forall p: int :: HoldsAt(rows, room, q, p)
  }

  predicate HoldsAt(rows: Rows, room: string, q: seq<string>, p: int)
  {
    if 0 <= p < |q| then (room, p) in rows && rows[(room, p)] == q[p] else (room, p) !in rows
  }

  /** The sequence is determined by the rows. */
  lemma HoldsUnique(rows: Rows, room: string, q: seq<string>, q': seq<string>)
    requires Holds(rows, room, q) && Holds(rows, room, q')
    ensures q == q'
  {
    var n := if |q| < |q'| then |q| else |q'|;
    assert HoldsAt(rows, room, q, n) && HoldsAt(rows, room, q', n);
    forall p: nat | p < |q| && p < |q'|
      ensures q[p] == q'[p]
    {
      assert HoldsAt(rows, room, q, p) && HoldsAt(rows, room, q', p);
    }
  }

  function Without(q: seq<string>, i: nat): seq<string>
    requires i < |q|
  {
    q[..i] + q[i + 1..]
  }

  /** The order that visits g, g+1, ..., n-1. */
  predicate Ascending(order: seq<int>, g: int)
  {
    forall i | 0 <= i < |order| :: order[i] == g + i
  }

  lemma AddAppends(rows: Rows, room: string, media: string, at: int, q: seq<string>)
    requires Holds(rows, room, q) && IsNext(rows, room, at)
    ensures at == |q| && Holds(rows[(room, at) := media], room, q + [media])
  {
    forall k | k in rows && k.0 == room
      ensures 0 <= k.1 < |q|
    {
      assert k == (room, k.1) && HoldsAt(rows, room, q, k.1);
    }
    assert HoldsAt(rows, room, q, |q| - 1);
    var after, q' := rows[(room, at) := media], q + [media];
    forall p: int
      ensures HoldsAt(after, room, q', p)
    {
      assert HoldsAt(rows, room, q, p);
    }
  }

  /** The rows while the hole left by item `i` has wandered up to position `g`. */
  ghost predicate Hole(rows: Rows, room: string, q: seq<string>, i: nat, g: int)
  {
    i <= g < |q| && forall p: int :: HoleAt(rows, room, q, i, g, p)
  }

  ghost predicate HoleAt(rows: Rows, room: string, q: seq<string>, i: nat, g: int, p: int)
  {
    if p < 0 || p >= |q| || p == g then (room, p) !in rows
    else (room, p) in rows && rows[(room, p)] == if i <= p < g && p + 1 < |q| then q[p + 1] else q[p]
  }

  lemma HoleAtEnd(rows: Rows, room: string, q: seq<string>, i: nat)
    requires Hole(rows, room, q, i, |q| - 1)
    ensures Holds(rows, room, Without(q, i))
  {
    forall p: int
      ensures HoldsAt(rows, room, Without(q, i), p)
    {
      assert HoleAt(rows, room, q, i, |q| - 1, p);
    }
  }

  lemma HoleMoves(rows: Rows, room: string, q: seq<string>, i: nat, g: int)
    requires Hole(rows, room, q, i, g) && g + 1 < |q|
    ensures (room, g + 1) in rows && Hole(MoveDown(rows, room, g + 1), room, q, i, g + 1)
  {
    assert HoleAt(rows, room, q, i, g, g + 1);
    var h := g + 1;
    var after := MoveDown(rows, room, h);
    forall p: int
      ensures HoleAt(after, room, q, i, h, p)
    {
      assert HoleAt(rows, room, q, i, g, p);
    }
  }

  /** The rest of the scan is a permutation of g+1, ..., n-1. */
  ghost predicate Visits(order: seq<int>, g: int, n: int)
  {
    && (forall p: int :: p in order <==> g < p < n)
    && (forall j, k | 0 <= j < k < |order| :: order[j] != order[k])
  }

  lemma VisitsRest(order: seq<int>, g: int, n: int)
    requires Visits(order, g, n) && order != [] && order[0] == g + 1
    ensures Visits(order[1..], g + 1, n)
  {
    forall p: int
      ensures p in order[1..] <==> g + 1 < p < n
    {
      if g + 1 < p < n {
        assert p in order;
        var k :| 0 <= k < |order| && order[k] == p;
        assert order[1..][k - 1] == p;
      }
      if p in order[1..] {
        var k :| 0 <= k < |order| - 1 && order[1..][k] == p;
        assert order[k + 1] == p && order[0] != order[k + 1];
        assert p in order;
      }
    }
  }

  /** Renumbering goes through exactly when the rows are visited in ascending order, and closes the hole. */
  lemma {:induction false} RenumberedIff(rows: Rows, room: string, q: seq<string>, i: nat, g: int, order: seq<int>)
    requires Hole(rows, room, q, i, g) && Visits(order, g, |q|)
    ensures Renumbered(rows, room, order).Some? <==> Ascending(order, g + 1)
    ensures Renumbered(rows, room, order).Some? ==> Holds(Renumbered(rows, room, order).value, room, Without(q, i))
    decreases |order|
  {
    if order == [] {
      assert g < |q| - 1 <==> |q| - 1 in order;
      HoleAtEnd(rows, room, q, i);
    } else {
      assert order[0] in order;
      if order[0] == g + 1 {
        HoleMoves(rows, room, q, i, g);
        assert HoleAt(rows, room, q, i, g, g);
        VisitsRest(order, g, |q|);
        RenumberedIff(MoveDown(rows, room, g + 1), room, q, i, g + 1, order[1..]);
        AscendingRest(order, g + 1);
      } else {
        assert HoleAt(rows, room, q, i, g, order[0] - 1);
        assert !Ascending(order, g + 1);
      }
    }
  }

  lemma AscendingRest(order: seq<int>, g: int)
    requires order != [] && order[0] == g
    ensures Ascending(order, g) <==> Ascending(order[1..], g + 1)
  {
    assert forall k | 0 <= k < |order| - 1 :: order[1..][k] == order[k + 1];
    if Ascending(order[1..], g + 1) {
      forall k | 0 <= k < |order|
        ensures order[k] == g + k
      {
        if k > 0 {
          assert order[1..][k - 1] == g + 1 + (k - 1);
        }
      }
    }
  }

  /** Renumbering touches one room only. */
  lemma {:induction false} OtherRoomsUntouched(rows: Rows, room: string, order: seq<int>, k: (string, int))
    requires k.0 != room && Renumbered(rows, room, order).Some?
    ensures var after := Renumbered(rows, room, order).value;
            && (k in after <==> k in rows)
            && (k in rows ==> after[k] == rows[k])
    decreases |order|
  {
    if order != [] {
      OtherRoomsUntouched(MoveDown(rows, room, order[0]), room, order[1..], k);
    }
  }

  /**
   Removing from a queue of n items: not found outside 0 to n-1, otherwise exactly the item at the position
   goes and the rest keeps its order when the rows above are visited in ascending order, and a key
   conflict that changes nothing when they are not.
   */
  lemma RemoveDeletesIff(rows: Rows, room: string, position: int, order: seq<int>, q: seq<string>)
    requires Holds(rows, room, q) && IsScan(rows, room, position, order)
    ensures var r := OutcomeOf(rows, room, position, order);
            && (r.NotFound? <==> !(0 <= position < |q|))
            && (r.Removed? <==> 0 <= position < |q| && Ascending(order, position + 1))
            && Holds(AfterRemove(rows, room, position, order), room, if r.Removed? then Without(q, position) else q)
  {
    assert HoldsAt(rows, room, q, position);
    if 0 <= position < |q| {
      var start := rows - {(room, position)};
      forall p: int
        ensures HoleAt(start, room, q, position, position, p)
        ensures p in order <==> position < p < |q|
      {
        assert HoldsAt(rows, room, q, p);
      }
      RenumberedIff(start, room, q, position, position, order);
    }
  }

  lemma RemoveKeepsOthers(rows: Rows, room: string, position: int, order: seq<int>, other: string, q: seq<string>)
    requires other != room && Holds(rows, other, q)
    ensures Holds(AfterRemove(rows, room, position, order), other, q)
  {
    if OutcomeOf(rows, room, position, order).Removed? {
      forall p: int
        ensures HoldsAt(AfterRemove(rows, room, position, order), other, q, p)
      {
        assert HoldsAt(rows, other, q, p);
        OtherRoomsUntouched(rows - {(room, position)}, room, order, (other, p));
      }
    }
  }

  // ---- runs --------------------------------------------------------------------------------------

  datatype Op =
    | Add(room: string, media: string, at: int)
    | Remove(room: string, position: int, order: seq<int>)

  ghost predicate Enabled(rows: Rows, op: Op)
  {
    match op
    case Add(room, _, at) => IsNext(rows, room, at)
    case Remove(room, position, order) => IsScan(rows, room, position, order)
  }

  function Stepped(rows: Rows, op: Op): Rows
  {
    match op
    case Add(room, media, at) => rows[(room, at) := media]
    case Remove(room, position, order) => AfterRemove(rows, room, position, order)
  }

  ghost predicate Runs(ops: seq<Op>)
  {
    ops != [] ==> Runs(ops[..|ops| - 1]) && Enabled(RunOf(ops[..|ops| - 1]), ops[|ops| - 1])
  }

  function RunOf(ops: seq<Op>): Rows
  {
    if ops == [] then map[] else Stepped(RunOf(ops[..|ops| - 1]), ops[|ops| - 1])
  }

  /** The same operations on a plain sequence. */
  function Edited(q: seq<string>, op: Op, room: string): seq<string>
  {
    if op.room != room then q
    else match op
      case Add(_, media, _) => q + [media]
      case Remove(_, position, order) =>
        if 0 <= position < |q| && Ascending(order, position + 1) then Without(q, position) else q
  }

  function QueueOf(ops: seq<Op>, room: string): seq<string>
  {
    if ops == [] then [] else Edited(QueueOf(ops[..|ops| - 1], room), ops[|ops| - 1], room)
  }

  lemma StepRefines(rows: Rows, op: Op, room: string, q: seq<string>)
    requires Holds(rows, room, q) && Enabled(rows, op)
    ensures Holds(Stepped(rows, op), room, Edited(q, op, room))
  {
    match op {
      case Add(r, media, at) =>
        if r == room {
          AddAppends(rows, room, media, at, q);
        } else {
          assert forall p: int :: HoldsAt(rows, room, q, p) ==> HoldsAt(Stepped(rows, op), room, q, p);
        }
      case Remove(r, position, order) =>
        if r == room {
          RemoveDeletesIff(rows, room, position, order, q);
        } else {
          RemoveKeepsOthers(rows, r, position, order, room, q);
        }
    }
  }

  /** After every run over any rooms, each room's rows are its sequence at positions 0 to n-1. */
  lemma {:induction false} TableRefinesSequences(ops: seq<Op>, room: string)
    requires Runs(ops)
    ensures Holds(RunOf(ops), room, QueueOf(ops, room))
  {
    if ops != [] {
      var n := |ops| - 1;
      TableRefinesSequences(ops[..n], room);
      StepRefines(RunOf(ops[..n]), ops[n], room, QueueOf(ops[..n], room));
    }
  }

  lemma ThreeAdded(room: string, a: string, b: string, c: string)
    ensures var adds := [Add(room, a, 0), Add(room, b, 1), Add(room, c, 2)];
            Runs(adds) && Holds(RunOf(adds), room, [a, b, c])
  {
    var x, y, z := Add(room, a, 0), Add(room, b, 1), Add(room, c, 2);
    RunExtends([], x, room, []);
    RunExtends([] + [x], y, room, [] + [a]);
    RunExtends([] + [x] + [y], z, room, [] + [a] + [b]);
    assert [] + [x] + [y] + [z] == [x, y, z] && [] + [a] + [b] + [c] == [a, b, c];
  }

  /** Three items, the first removed, the other two visited from the end: a key conflict, and nothing changes. */
  lemma DescendingVisitConflicts(room: string, a: string, b: string, c: string)
    ensures var adds := [Add(room, a, 0), Add(room, b, 1), Add(room, c, 2)];
            && Runs(adds + [Remove(room, 0, [2, 1])])
            && OutcomeOf(RunOf(adds), room, 0, [2, 1]).Conflict?
            && RunOf(adds + [Remove(room, 0, [2, 1])]) == RunOf(adds)
  {
    var adds := [Add(room, a, 0), Add(room, b, 1), Add(room, c, 2)];
    var rows, remove := RunOf(adds), Remove(room, 0, [2, 1]);
    ThreeAdded(room, a, b, c);
    assert forall p: int :: HoldsAt(rows, room, [a, b, c], p);
    assert (adds + [remove])[..3] == adds;
    assert [2, 1][0] != 1;
    RemoveDeletesIff(rows, room, 0, [2, 1], [a, b, c]);
  }

  lemma RunExtends(ops: seq<Op>, op: Op, room: string, q: seq<string>)
    requires Runs(ops) && Holds(RunOf(ops), room, q) && op.Add? && op.room == room && op.at == |q|
    ensures Runs(ops + [op]) && Holds(RunOf(ops + [op]), room, q + [op.media])
  {
    var rows := RunOf(ops);
    assert (ops + [op])[..|ops|] == ops;
    forall k | k in rows && k.0 == room
      ensures 0 <= k.1 < |q|
    {
      assert k == (room, k.1) && HoldsAt(rows, room, q, k.1);
    }
    assert HoldsAt(rows, room, q, |q| - 1);
    AddAppends(rows, room, op.media, op.at, q);
  }
}
