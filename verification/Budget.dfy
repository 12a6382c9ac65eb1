/** Budget categories: what is limited, used and left, and how a set of them is validated. */
module Budget {
  datatype Hardness = Soft | Hard
  datatype Violation = NoViolation | Warning | Breached

  datatype CategoryState = CategoryState(limit: real, consumed: real, reserved: real, projected: real,
    hardness: Hardness, violation: Violation)

  const TOLERANCE := 0.000000000001

  function AtLeastZero(x: real): real { if x < 0.0 then 0.0 else x }

  function Remaining(c: CategoryState): real { AtLeastZero(c.limit - c.consumed - c.reserved) }

  function Refreshed(c: CategoryState): CategoryState {
    c.(violation :=
        if c.consumed + c.reserved > c.limit + TOLERANCE then (if c.hardness == Hard then Breached else Warning)
        else if c.projected > c.limit + TOLERANCE then Warning else NoViolation)
  }

  function Consume(c: CategoryState, amount: real): CategoryState {
    Refreshed(c.(consumed := AtLeastZero(c.consumed + amount)))
  }

  function Reserve(c: CategoryState, amount: real): CategoryState {
    Refreshed(c.(reserved := AtLeastZero(c.reserved + amount)))
  }

  function Release(c: CategoryState, amount: real): CategoryState {
    Refreshed(c.(reserved := AtLeastZero(c.reserved - amount)))
  }

  // ---- The ledger of one category ----

  datatype Entry = Reserved(amount: real) | Settled(reserved: real, actual: real)

  function Post(c: CategoryState, e: Entry): CategoryState {
    match e
    case Reserved(a) => Reserve(c, a)
    case Settled(r, actual) => Consume(Release(c, r), actual)
  }

  ghost function PostAll(c: CategoryState, es: seq<Entry>): CategoryState {
    if es == [] then c else Post(PostAll(c, es[..|es| - 1]), es[|es| - 1])
  }

  ghost function Outstanding(es: seq<Entry>): real {
    if es == [] then 0.0
    else Outstanding(es[..|es| - 1]) + match es[|es| - 1] case Reserved(a) => a case Settled(r, _) => -r
  }

  ghost function Spent(es: seq<Entry>): real {
    if es == [] then 0.0
    else Spent(es[..|es| - 1]) + match es[|es| - 1] case Reserved(_) => 0.0 case Settled(_, actual) => actual
  }

  /** At no time is more released than is held, and no actual amount is negative. */
  ghost predicate Covered(held: real, es: seq<Entry>) {
    && (forall i :: 0 <= i <= |es| ==> held + Outstanding(es[..i]) >= 0.0)
    && (forall i :: 0 <= i < |es| ==> es[i].Settled? ==> es[i].actual >= 0.0)
  }

  /** Nothing is lost in a ledger: reserved is what is still outstanding, consumed is what was spent. */
  lemma {:induction false} LedgerConserves(c: CategoryState, es: seq<Entry>)
    requires c.consumed >= 0.0 && Covered(c.reserved, es)
    ensures PostAll(c, es).reserved == c.reserved + Outstanding(es)
    ensures PostAll(c, es).consumed == c.consumed + Spent(es) >= c.consumed
    ensures PostAll(c, es).limit == c.limit
  {
    if es != [] {
      var earlier := es[..|es| - 1];
      assert es[..|es|] == es;
      assert forall i :: 0 <= i <= |earlier| ==> earlier[..i] == es[..i];
      LedgerConserves(c, earlier);
    }
  }

  /** A hard category is breached exactly when what is outstanding and spent exceeds the limit; a soft one never is. */
  lemma LedgerViolation(c: CategoryState, es: seq<Entry>)
    requires c.consumed >= 0.0 && Covered(c.reserved, es) && es != []
    ensures var used := c.consumed + Spent(es) + c.reserved + Outstanding(es);
            var v := PostAll(c, es).violation;
            && (v == Breached <==> c.hardness == Hard && used > c.limit + TOLERANCE)
            && (v == NoViolation <==> used <= c.limit + TOLERANCE && c.projected <= c.limit + TOLERANCE)
  {
    LedgerConserves(c, es);
    LedgerKeeps(c, es);
    assert PostAll(c, es) == Refreshed(PostAll(c, es));
  }

  lemma {:induction false} LedgerKeeps(c: CategoryState, es: seq<Entry>)
    ensures PostAll(c, es).hardness == c.hardness && PostAll(c, es).projected == c.projected
  {
    if es != [] { LedgerKeeps(c, es[..|es| - 1]); }
  }

  // ---- Validation of a whole state ----

  type Categories = map<string, CategoryState>
  type Dimensions = map<string, real>

  function Need(name: string, c: CategoryState, projected: Dimensions): real {
    if name in projected then projected[name] else c.projected
  }

  predicate Over(name: string, c: CategoryState, projected: Dimensions) {
    Need(name, c, projected) > Remaining(c) + TOLERANCE
  }

  function Judged(name: string, c: CategoryState, projected: Dimensions): CategoryState {
    if Over(name, c, projected) then c.(violation := if c.hardness == Hard then Breached else Warning) else Refreshed(c)
  }

  function JudgedAll(cats: Categories, projected: Dimensions): Categories {
    map n | n in cats :: Judged(n, cats[n], projected)
  }

  function HardFailures(cats: Categories, projected: Dimensions): set<string> {
    set n | n in cats && Over(n, cats[n], projected) && cats[n].hardness == Hard
  }

  function SoftWarnings(cats: Categories, projected: Dimensions): set<string> {
    set n | n in cats && Over(n, cats[n], projected) && cats[n].hardness == Soft
  }

  /**
   Validation marks every category: breached when it is hard and needs more than it has left, or has used more
   than its limit; with a warning when it is soft and does, or when only its own projection is above the limit.
   */
  lemma ValidationMarks(cats: Categories, projected: Dimensions, n: string)
    requires n in cats
    ensures var c, need := cats[n], if n in projected then projected[n] else cats[n].projected;
            var left := c.limit - c.consumed - c.reserved;
            var short := need > (if left < 0.0 then 0.0 else left) + TOLERANCE;
            var beyond := c.consumed + c.reserved > c.limit + TOLERANCE;
            && n in JudgedAll(cats, projected)
            && JudgedAll(cats, projected)[n] == c.(violation :=
                 if short || beyond then (if c.hardness == Hard then Breached else Warning)
                 else if c.projected > c.limit + TOLERANCE then Warning else NoViolation)
            && (n in HardFailures(cats, projected) <==> short && c.hardness == Hard)
            && (n in SoftWarnings(cats, projected) <==> short && c.hardness == Soft)
  {
  }

  class BudgetCategory {
    const hardness: Hardness
    var limit: real
    var consumed: real
    var reserved: real
    var projected: real
    var violation: Violation

    function View(): CategoryState
      reads this
    {
      CategoryState(limit, consumed, reserved, projected, hardness, violation)
    }

    constructor (limit: real, hardness: Hardness)
      ensures View() == CategoryState(limit, 0.0, 0.0, 0.0, hardness, NoViolation)
    {
      this.limit, this.hardness := limit, hardness;
      consumed, reserved, projected, violation := 0.0, 0.0, 0.0, NoViolation;
    }

    method RefreshViolation()
      modifies this`violation
      ensures View() == Refreshed(old(View()))
    {
      if consumed + reserved > limit + TOLERANCE {
        violation := if hardness == Hard then Breached else Warning;
      } else if projected > limit + TOLERANCE {
        violation := Warning;
      } else {
        violation := NoViolation;
      }
    }

    method ApplyConsume(amount: real)
      modifies this
      ensures View() == Consume(old(View()), amount)
    {
      consumed := AtLeastZero(consumed + amount);
      RefreshViolation();
    }

    method ApplyReserve(amount: real)
      modifies this
      ensures View() == Reserve(old(View()), amount)
    {
      reserved := AtLeastZero(reserved + amount);
      RefreshViolation();
    }

    method ReleaseReserve(amount: real)
      modifies this
      ensures View() == Release(old(View()), amount)
    {
      reserved := AtLeastZero(reserved - amount);
      RefreshViolation();
    }

    /** One category's share of the validation of a state. */
    method Judge(name: string, projections: Dimensions) returns (over: bool)
      modifies this`violation
      ensures View() == Judged(name, old(View()), projections)
      ensures over == Over(name, old(View()), projections)
    {
      over := Over(name, View(), projections);
      if over {
        violation := if hardness == Hard then Breached else Warning;
      } else {
        RefreshViolation();
      }
    }
  }
}
