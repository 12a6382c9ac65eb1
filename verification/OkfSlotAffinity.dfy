/** The LRU table from OKF block hashes to slots. */
module OkfSlotAffinity {
  import opened Options
  import opened Recency
  import opened Suffixes

  type Hash = string

  datatype Op =
    | Recorded(hashes: seq<Hash>, slot: int)
    | LookedUp(hashes: seq<Hash>)

  // ---- The reference reading of a run ----

  ghost function FirstIn(hashes: seq<Hash>, table: seq<Hash>): (r: Option<Hash>)
    ensures r.Some? ==> r.value in hashes && r.value in table
    ensures r == None ==> forall h <- hashes :: h !in table
  {
    if hashes == [] then None
    else if hashes[0] in table then Some(hashes[0])
    else FirstIn(hashes[1..], table)
  }

  /** It is the first of them that is in the table. */
  lemma {:induction false} FirstInIsFirst(hashes: seq<Hash>, table: seq<Hash>) returns (i: nat)
    requires FirstIn(hashes, table).Some?
    ensures i < |hashes| && FirstIn(hashes, table) == Some(hashes[i]) && hashes[i] in table
    ensures forall j :: 0 <= j < i ==> hashes[j] !in table
  {
    if hashes[0] in table {
      i := 0;
    } else {
      i := FirstInIsFirst(hashes[1..], table);
      i := i + 1;
    }
  }

  /** Every hash touched: all that are recorded, and the one a lookup hits among the `max` latest. */
  ghost function Touches(ops: seq<Op>, max: int): seq<Hash> {
    if ops == [] then []
    else
      var before := Touches(ops[..|ops| - 1], max);
      match ops[|ops| - 1]
      case Recorded(hashes, _) => before + hashes
      case LookedUp(hashes) =>
        match FirstIn(hashes, Last(Recent(before), max))
        case None => before
        case Some(h) => before + [h]
  }

  /** Operation `i` is the last one that recorded `h`. */
  ghost predicate LastRecorded(ops: seq<Op>, h: Hash, i: int) {
    && 0 <= i < |ops| && ops[i].Recorded? && h in ops[i].hashes
    && forall j :: i < j < |ops| && ops[j].Recorded? ==> h !in ops[j].hashes
  }

  ghost predicate RecordedWith(ops: seq<Op>, h: Hash, slot: int) {
    exists i :: LastRecorded(ops, h, i) && ops[i].slot == slot
  }

  lemma RecordedNow(ops: seq<Op>, op: Op, h: Hash)
    requires op.Recorded? && h in op.hashes
    ensures RecordedWith(ops + [op], h, op.slot)
  {
    assert LastRecorded(ops + [op], h, |ops|);
  }

  lemma RecordedBefore(ops: seq<Op>, op: Op, h: Hash, slot: int)
    requires RecordedWith(ops, h, slot) && !(op.Recorded? && h in op.hashes)
    ensures RecordedWith(ops + [op], h, slot)
  {
    var i :| LastRecorded(ops, h, i) && ops[i].slot == slot;
    assert LastRecorded(ops + [op], h, i);
  }

  /** Every slot in a table is the one its hash was last recorded with. */
  ghost predicate SlotsRecorded(ops: seq<Op>, table: map<Hash, int>) {
    forall h :: h in table ==> RecordedWith(ops, h, table[h])
  }

  ghost predicate SubTable(table: map<Hash, int>, table': map<Hash, int>) {
    forall h :: h in table ==> h in table' && table[h] == table'[h]
  }

  /** Every slot in the new table is the one just recorded, for a recorded hash, or the old one. */
  ghost predicate TableRecords(table: map<Hash, int>, table': map<Hash, int>, hashes: seq<Hash>, slot: int) {
    forall h :: h in table' ==> if h in hashes then table'[h] == slot else h in table && table'[h] == table[h]
  }

  lemma RecordSlots(ops: seq<Op>, table: map<Hash, int>, table': map<Hash, int>, hashes: seq<Hash>, slot: int)
    requires SlotsRecorded(ops, table) && TableRecords(table, table', hashes, slot)
    ensures SlotsRecorded(ops + [Recorded(hashes, slot)], table')
  {
    var op := Recorded(hashes, slot);
    forall h | h in table'
      ensures RecordedWith(ops + [op], h, table'[h])
    {
      if h in hashes { RecordedNow(ops, op, h); } else { RecordedBefore(ops, op, h, table'[h]); }
    }
  }

  lemma LookupSlots(ops: seq<Op>, table: map<Hash, int>, hashes: seq<Hash>)
    requires SlotsRecorded(ops, table)
    ensures SlotsRecorded(ops + [LookedUp(hashes)], table)
  {
    forall h | h in table
      ensures RecordedWith(ops + [LookedUp(hashes)], h, table[h])
    {
      RecordedBefore(ops, LookedUp(hashes), h, table[h]);
    }
  }

  ghost function Order(ops: seq<Op>, max: int): seq<Hash> { Last(Recent(Touches(ops, max)), max) }

  lemma RecordOrder(ops: seq<Op>, hashes: seq<Hash>, slot: int, max: int)
    ensures Order(ops + [Recorded(hashes, slot)], max) == Last(TouchAll(Order(ops, max), hashes), max)
  {
    assert (ops + [Recorded(hashes, slot)])[..|ops|] == ops;
    RecentBatch(Touches(ops, max), hashes, max);
  }

  /** A hit moves its hash to the recent end of the trimmed list; a miss changes nothing. */
  lemma LookupOrder(ops: seq<Op>, hashes: seq<Hash>, max: int)
    ensures var hit := FirstIn(hashes, Order(ops, max));
            Order(ops + [LookedUp(hashes)], max)
            == if hit == None then Order(ops, max) else Touch(Order(ops, max), hit.value)
  {
    assert (ops + [LookedUp(hashes)])[..|ops|] == ops;
    var touched, hit := Touches(ops, max), FirstIn(hashes, Order(ops, max));
    if hit.Some? {
      RecentBatch(touched, [hit.value], max);
      RecentMembers(touched);
      TouchHit(Order(ops, max), hit.value, max);
    }
  }

  class OkfSlotAffinity {
    const max: int
    var order: seq<Hash>        // the keys of the ordered dictionary, least recent first
    var table: map<Hash, int>   // its values
    ghost var ops: seq<Op>

    ghost predicate Dict()
      reads this
    {
      NoDup(order) && forall h :: h in table <==> h in order
    }

    /** The table is the reference: the latest `max` distinct touched hashes, each with its last recorded slot. */
    ghost predicate Valid()
      reads this
    {
      && Dict()
      && order == Order(ops, max)
      && SlotsRecorded(ops, table)
    }

    constructor (max: int)
      ensures Valid() && this.max == max && ops == []
    {
      this.max, order, table, ops := max, [], map[], [];
    }

    method Put(h: Hash, slot: int)
      requires Dict()
      modifies this`order, this`table
      ensures Dict()
      ensures order == Touch(old(order), h)
      ensures table == old(table)[h := slot]
    {
      TouchNoDup(order, h);
      RemoveMembers(order, h);
      if h in table {
        order, table := Remove(order, h), table - {h};
      }
      order, table := order + [h], table[h := slot];
    }

    method PopOldest()
      requires Dict() && order != []
      modifies this`order, this`table
      ensures Dict()
      ensures order == old(order)[1..]
      ensures table == old(table) - {old(order)[0]}
    {
      assert order == [order[0]] + order[1..];
      order, table := order[1..], table - {order[0]};
    }

    method PutAll(hashes: seq<Hash>, slot: int)
      requires Dict()
      modifies this`order, this`table
      ensures Dict()
      ensures order == TouchAll(old(order), hashes)
      ensures TableRecords(old(table), table, hashes, slot)
    {
      for i := 0 to |hashes|
        invariant Dict()
        invariant order == TouchAll(old(order), hashes[..i])
        invariant TableRecords(old(table), table, hashes[..i], slot)
      {
        Put(hashes[i], slot);
        TouchAllNext(old(order), hashes, i);
        assert hashes[..i + 1] == hashes[..i] + [hashes[i]];
      }
      assert hashes[..|hashes|] == hashes;
    }

    /** A negative `max` pops from an empty dictionary: the KeyError of `popitem`. */
    method Trim() returns (keyError: bool)
      requires Dict()
      modifies this`order, this`table
      ensures Dict()
      ensures order == Last(old(order), max) && keyError == (max < 0)
      ensures SubTable(table, old(table))
    {
      keyError := false;
      while |order| > max
        invariant Dict()
        invariant IsSuffix(order, old(order)) && (|order| < max ==> order == old(order))
        invariant SubTable(table, old(table))
        decreases |order|
      {
        if order == [] {
          keyError := true;
          break;
        }
        SuffixDrop(order, old(order), 1);
        PopOldest();
      }
    }

    method Record(hashes: seq<Hash>, slot: int) returns (keyError: bool)
      requires Valid()
      modifies this
      ensures Valid()
      ensures ops == if hashes == [] then old(ops) else old(ops) + [Recorded(hashes, slot)]
      ensures order == Order(ops, max) && (forall h :: h in table <==> h in order)
      ensures forall h :: h in table ==> RecordedWith(ops, h, table[h])
      ensures keyError <==> hashes != [] && max < 0
      ensures TableRecords(old(table), table, hashes, slot)
    {
      if hashes == [] { return false; }
      PutAll(hashes, slot);
      keyError := Trim();
      RecordOrder(ops, hashes, slot, max);
      RecordSlots(ops, old(table), table, hashes, slot);
      ops := ops + [Recorded(hashes, slot)];
    }

    method MoveToEnd(h: Hash)
      requires Dict() && h in table
      modifies this`order
      ensures Dict() && order == Touch(old(order), h)
    {
      TouchNoDup(order, h);
      order := Remove(order, h) + [h];
    }

    /** The loop of lookup: the first hash that is in the table. */
    method FirstHit(hashes: seq<Hash>) returns (hit: Option<Hash>)
      requires Dict()
      ensures hit == FirstIn(hashes, order)
    {
      for i := 0 to |hashes|
        invariant FirstIn(hashes, order) == FirstIn(hashes[i..], order)
      {
        if hashes[i] in table { return Some(hashes[i]); }
      }
      hit := None;
    }

    method Lookup(hashes: seq<Hash>) returns (slot: Option<int>)
      requires Valid()
      modifies this`order, this`ops
      ensures Valid()
      ensures ops == if hashes == [] then old(ops) else old(ops) + [LookedUp(hashes)]
      ensures order == Order(ops, max) && (forall h :: h in table <==> h in order)
      ensures forall h :: h in table ==> RecordedWith(ops, h, table[h])
      ensures var hit := FirstIn(hashes, old(order));
              slot == if hit == None then None else Some(old(table)[hit.value])
    {
      if hashes == [] { return None; }
      ghost var op := LookedUp(hashes);
      LookupSlots(ops, table, hashes);
      LookupOrder(ops, hashes, max);
      var hit := FirstHit(hashes);
      slot := None;
      if hit.Some? {
        MoveToEnd(hit.value);
        slot := Some(table[hit.value]);
      }
      ops := ops + [op];
    }
  }

  lemma TakeTail<T>(xs: seq<T>, i: nat)
    requires 0 < i <= |xs|
    ensures xs[..i] != [] && xs[..i][0] == xs[0] && xs[..i][1..] == xs[1..][..i - 1]
  {
  }

  lemma {:induction false} TouchAllNext(s: seq<Hash>, xs: seq<Hash>, i: nat)
    requires i < |xs|
    ensures TouchAll(s, xs[..i + 1]) == Touch(TouchAll(s, xs[..i]), xs[i])
    decreases i
  {
    if i > 0 {
      TouchAllNext(Touch(s, xs[0]), xs[1..], i - 1);
      TakeTail(xs, i + 1);
      TakeTail(xs, i);
    }
  }
}
