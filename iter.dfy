/** The position state of an iterator over the fields of a Value
  * (Value::IterInfo and Value::Iter in pvxs/data.h). Skipping ahead to the
  * next marked field is Value::_iter_advance, whose body is not part of
  * this model: it is a parameter. */
module Iteration {

  /** pos: the current field; nextcheck: when iterating over marked fields
    * only, every field in [pos, nextcheck) is known to be marked. */
  datatype IterInfo = IterInfo(pos: nat, nextcheck: nat, marked: bool, depth: bool)

  /** Value::_iter_advance, seen from the iterator: a new position state. */
  type Advance = IterInfo -> IterInfo

  /** Whether one ++ consults `advance`: only when iterating over marked
    * fields and the new position has reached `nextcheck`. */
  predicate NeedsCheck(s: IterInfo) {
    s.marked && s.pos + 1 >= s.nextcheck
  }

  /** The state after one ++. */
  function Step(s: IterInfo, advance: Advance): IterInfo {
    var moved := s.(pos := s.pos + 1);
    if moved.marked && moved.pos >= moved.nextcheck then advance(moved) else moved
  }

  /** The state after `n` increments. */
  function Steps(s: IterInfo, n: nat, advance: Advance): IterInfo
    decreases n
  {
    if n == 0 then s else Steps(Step(s, advance), n - 1, advance)
  }

  /** One ++ moves to the next field and consults `advance` exactly when
    * NeedsCheck holds: otherwise no advance function can change the
    * result. */
  lemma StepConsults(s: IterInfo, a1: Advance, a2: Advance)
    ensures !NeedsCheck(s) ==> Step(s, a1) == Step(s, a2) == s.(pos := s.pos + 1)
    ensures NeedsCheck(s) ==> Step(s, a1) == a1(s.(pos := s.pos + 1))
  {
  }

  /** Without marks, n increments move exactly n fields on. */
  lemma {:induction false} UnmarkedSteps(s: IterInfo, n: nat, advance: Advance)
    requires !s.marked
    ensures Steps(s, n, advance) == s.(pos := s.pos + n)
    decreases n
  {
    if n > 0 {
      UnmarkedSteps(s.(pos := s.pos + 1), n - 1, advance);
    }
  }

  /** With marks, the fields before `nextcheck` are taken one by one
    * without consulting `advance`. */
  lemma {:induction false} CheckedRunSteps(s: IterInfo, n: nat, advance: Advance)
    requires s.pos + n < s.nextcheck
    ensures Steps(s, n, advance) == s.(pos := s.pos + n)
    decreases n
  {
    if n > 0 {
      CheckedRunSteps(s.(pos := s.pos + 1), n - 1, advance);
    }
  }

  class Iter {
    var pos: nat
    var nextcheck: nat
    var marked: bool
    var depth: bool

    function Info(): IterInfo
      reads this
    {
      IterInfo(pos, nextcheck, marked, depth)
    }

    /** The default iterator, at field 0 with nothing marked. */
    constructor Default()
      ensures Info() == IterInfo(0, 0, false, false)
    {
      pos, nextcheck, marked, depth := 0, 0, false, false;
    }

    /** A new iterator has checked nothing yet: nextcheck is its position. */
    constructor (pos: nat, marked: bool, depth: bool)
      ensures Info() == IterInfo(pos, pos, marked, depth)
      ensures this.nextcheck == this.pos
    {
      this.pos, nextcheck, this.marked, this.depth := pos, pos, marked, depth;
    }

    /** Prefix ++. */
    method Increment(advance: Advance)
      modifies this
      ensures Info() == Step(old(Info()), advance)
      ensures !NeedsCheck(old(Info())) ==> pos == old(pos) + 1 && nextcheck == old(nextcheck)
    {
      pos := pos + 1;
      if marked && pos >= nextcheck {
        var next := advance(Info());
        pos, nextcheck, marked, depth := next.pos, next.nextcheck, next.marked, next.depth;
      }
    }

    /** Postfix ++: a copy of the iterator as it was, then the step. */
    method PostIncrement(advance: Advance) returns (ret: Iter)
      modifies this
      ensures fresh(ret) && ret.Info() == old(Info())
      ensures Info() == Step(old(Info()), advance)
    {
      ret := new Iter(pos, marked, depth);
      ret.nextcheck := nextcheck;
      pos := pos + 1;
      if marked && pos >= nextcheck {
        var next := advance(Info());
        pos, nextcheck, marked, depth := next.pos, next.nextcheck, next.marked, next.depth;
      }
    }

    /** Two iterators are equal when they are at the same field. */
    predicate Equals(o: Iter)
      reads this, o
    {
      pos == o.pos
    }
  }
}
