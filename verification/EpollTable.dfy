/** The table that turns a pending change of interest in a file descriptor into one epoll_ctl
    call. */
module EpollTable {

  /** A set of events: read, write, peer closed. */
  datatype Ev = Ev(r: bool, w: bool, c: bool)

  const NONE := Ev(false, false, false)

  datatype CtlOp = CtlNone | CtlAdd | CtlMod | CtlDel | CtlBad

  datatype Row = Row(events: Ev, op: CtlOp)

  const EV_CHANGE_ADD: nat := 1
  const EV_CHANGE_DEL: nat := 2

  /** A change of one event: 0, add, del, or the impossible add and del at once. */
  type Delta = x: int | 0 <= x < 4

  /** The changes pending on a descriptor, and the events enabled before any of them. */
  datatype Change = Change(fd: nat, was: Ev, read: Delta, write: Delta, close: Delta)

  const AddC := Row(Ev(false, false, true), CtlAdd)
  const AddR := Row(Ev(true, false, false), CtlAdd)
  const AddRC := Row(Ev(true, false, true), CtlAdd)
  const AddRW := Row(Ev(true, true, false), CtlAdd)
  const AddRWC := Row(Ev(true, true, true), CtlAdd)
  const AddW := Row(Ev(false, true, false), CtlAdd)
  const AddWC := Row(Ev(false, true, true), CtlAdd)
  const Bad := Row(Ev(false, false, false), CtlBad)
  const DelC := Row(Ev(false, false, true), CtlDel)
  const DelR := Row(Ev(true, false, false), CtlDel)
  const DelRC := Row(Ev(true, false, true), CtlDel)
  const DelRW := Row(Ev(true, true, false), CtlDel)
  const DelRWC := Row(Ev(true, true, true), CtlDel)
  const DelW := Row(Ev(false, true, false), CtlDel)
  const DelWC := Row(Ev(false, true, true), CtlDel)
  const ModC := Row(Ev(false, false, true), CtlMod)
  const ModR := Row(Ev(true, false, false), CtlMod)
  const ModRC := Row(Ev(true, false, true), CtlMod)
  const ModRW := Row(Ev(true, true, false), CtlMod)
  const ModRWC := Row(Ev(true, true, true), CtlMod)
  const ModW := Row(Ev(false, true, false), CtlMod)
  const ModWC := Row(Ev(false, true, true), CtlMod)
  const Skip := Row(Ev(false, false, false), CtlNone)

  /** Rows 0 to 63: old events none. */
  function Block0(j: nat): Row {
    match j
    case 0 => Skip case 1 => AddC case 2 => DelC case 3 => Bad
    case 4 => AddR case 5 => AddRC case 6 => AddR case 7 => Bad
    case 8 => DelR case 9 => AddC case 10 => DelRC case 11 => Bad
    case 12 => Bad case 13 => Bad case 14 => Bad case 15 => Bad
    case 16 => AddW case 17 => AddWC case 18 => AddW case 19 => Bad
    case 20 => AddRW case 21 => AddRWC case 22 => AddRW case 23 => Bad
    case 24 => AddW case 25 => AddWC case 26 => AddW case 27 => Bad
    case 28 => Bad case 29 => Bad case 30 => Bad case 31 => Bad
    case 32 => DelW case 33 => AddC case 34 => DelWC case 35 => Bad
    case 36 => AddR case 37 => AddRC case 38 => AddR case 39 => Bad
    case 40 => DelRW case 41 => AddC case 42 => DelRWC case 43 => Bad
    case 44 => Bad case 45 => Bad case 46 => Bad case 47 => Bad
    case 48 => Bad case 49 => Bad case 50 => Bad case 51 => Bad
    case 52 => Bad case 53 => Bad case 54 => Bad case 55 => Bad
    case 56 => Bad case 57 => Bad case 58 => Bad case 59 => Bad
    case 60 => Bad case 61 => Bad case 62 => Bad case 63 => Bad
    case _ => Bad
  }

  /** Rows 64 to 127: old events read. */
  function Block1(j: nat): Row {
    match j
    case 0 => Skip case 1 => ModRC case 2 => ModR case 3 => Bad
    case 4 => ModR case 5 => ModRC case 6 => ModR case 7 => Bad
    case 8 => DelR case 9 => ModC case 10 => DelRC case 11 => Bad
    case 12 => Bad case 13 => Bad case 14 => Bad case 15 => Bad
    case 16 => ModRW case 17 => ModRWC case 18 => ModRW case 19 => Bad
    case 20 => ModRW case 21 => ModRWC case 22 => ModRW case 23 => Bad
    case 24 => ModW case 25 => ModWC case 26 => ModW case 27 => Bad
    case 28 => Bad case 29 => Bad case 30 => Bad case 31 => Bad
    case 32 => ModR case 33 => ModRC case 34 => ModR case 35 => Bad
    case 36 => ModR case 37 => ModRC case 38 => ModR case 39 => Bad
    case 40 => DelRW case 41 => ModC case 42 => DelRWC case 43 => Bad
    case 44 => Bad case 45 => Bad case 46 => Bad case 47 => Bad
    case 48 => Bad case 49 => Bad case 50 => Bad case 51 => Bad
    case 52 => Bad case 53 => Bad case 54 => Bad case 55 => Bad
    case 56 => Bad case 57 => Bad case 58 => Bad case 59 => Bad
    case 60 => Bad case 61 => Bad case 62 => Bad case 63 => Bad
    case _ => Bad
  }

  /** Rows 128 to 191: old events write. */
  function Block2(j: nat): Row {
    match j
    case 0 => Skip case 1 => ModWC case 2 => ModW case 3 => Bad
    case 4 => ModRW case 5 => ModRWC case 6 => ModRW case 7 => Bad
    case 8 => ModW case 9 => ModWC case 10 => ModW case 11 => Bad
    case 12 => Bad case 13 => Bad case 14 => Bad case 15 => Bad
    case 16 => ModW case 17 => ModWC case 18 => ModW case 19 => Bad
    case 20 => ModRW case 21 => ModRWC case 22 => ModRW case 23 => Bad
    case 24 => ModW case 25 => ModWC case 26 => ModW case 27 => Bad
    case 28 => Bad case 29 => Bad case 30 => Bad case 31 => Bad
    case 32 => DelW case 33 => ModC case 34 => DelWC case 35 => Bad
    case 36 => ModR case 37 => ModRC case 38 => ModR case 39 => Bad
    case 40 => DelRW case 41 => ModC case 42 => DelRWC case 43 => Bad
    case 44 => Bad case 45 => Bad case 46 => Bad case 47 => Bad
    case 48 => Bad case 49 => Bad case 50 => Bad case 51 => Bad
    case 52 => Bad case 53 => Bad case 54 => Bad case 55 => Bad
    case 56 => Bad case 57 => Bad case 58 => Bad case 59 => Bad
    case 60 => Bad case 61 => Bad case 62 => Bad case 63 => Bad
    case _ => Bad
  }

  /** Rows 192 to 255: old events read+write. */
  function Block3(j: nat): Row {
    match j
    case 0 => Skip case 1 => ModRWC case 2 => ModRW case 3 => Bad
    case 4 => ModRW case 5 => ModRWC case 6 => ModRW case 7 => Bad
    case 8 => ModW case 9 => ModWC case 10 => ModW case 11 => Bad
    case 12 => Bad case 13 => Bad case 14 => Bad case 15 => Bad
    case 16 => ModRW case 17 => ModRWC case 18 => ModRW case 19 => Bad
    case 20 => ModRW case 21 => ModRWC case 22 => ModRW case 23 => Bad
    case 24 => ModW case 25 => ModWC case 26 => ModW case 27 => Bad
    case 28 => Bad case 29 => Bad case 30 => Bad case 31 => Bad
    case 32 => ModR case 33 => ModRC case 34 => ModR case 35 => Bad
    case 36 => ModR case 37 => ModRC case 38 => ModR case 39 => Bad
    case 40 => DelRW case 41 => ModC case 42 => DelRWC case 43 => Bad
    case 44 => Bad case 45 => Bad case 46 => Bad case 47 => Bad
    case 48 => Bad case 49 => Bad case 50 => Bad case 51 => Bad
    case 52 => Bad case 53 => Bad case 54 => Bad case 55 => Bad
    case 56 => Bad case 57 => Bad case 58 => Bad case 59 => Bad
    case 60 => Bad case 61 => Bad case 62 => Bad case 63 => Bad
    case _ => Bad
  }

  /** Rows 256 to 319: old events closed. */
  function Block4(j: nat): Row {
    match j
    case 0 => Skip case 1 => ModC case 2 => DelC case 3 => Bad
    case 4 => ModRC case 5 => ModRC case 6 => ModR case 7 => Bad
    case 8 => ModC case 9 => ModC case 10 => DelRC case 11 => Bad
    case 12 => Bad case 13 => Bad case 14 => Bad case 15 => Bad
    case 16 => ModWC case 17 => ModWC case 18 => ModW case 19 => Bad
    case 20 => ModRWC case 21 => ModRWC case 22 => ModRW case 23 => Bad
    case 24 => ModWC case 25 => ModWC case 26 => ModW case 27 => Bad
    case 28 => Bad case 29 => Bad case 30 => Bad case 31 => Bad
    case 32 => ModC case 33 => ModC case 34 => DelWC case 35 => Bad
    case 36 => ModRC case 37 => ModRC case 38 => ModR case 39 => Bad
    case 40 => ModC case 41 => ModC case 42 => DelRWC case 43 => Bad
    case 44 => Bad case 45 => Bad case 46 => Bad case 47 => Bad
    case 48 => Bad case 49 => Bad case 50 => Bad case 51 => Bad
    case 52 => Bad case 53 => Bad case 54 => Bad case 55 => Bad
    case 56 => Bad case 57 => Bad case 58 => Bad case 59 => Bad
    case 60 => Bad case 61 => Bad case 62 => Bad case 63 => Bad
    case _ => Bad
  }

  /** Rows 320 to 383: old events read+closed. */
  function Block5(j: nat): Row {
    match j
    case 0 => Skip case 1 => ModRC case 2 => ModR case 3 => Bad
    case 4 => ModRC case 5 => ModRC case 6 => ModR case 7 => Bad
    case 8 => ModC case 9 => ModC case 10 => DelRC case 11 => Bad
    case 12 => Bad case 13 => Bad case 14 => Bad case 15 => Bad
    case 16 => ModRWC case 17 => ModRWC case 18 => ModRW case 19 => Bad
    case 20 => ModRWC case 21 => ModRWC case 22 => ModRW case 23 => Bad
    case 24 => ModWC case 25 => ModWC case 26 => ModW case 27 => Bad
    case 28 => Bad case 29 => Bad case 30 => Bad case 31 => Bad
    case 32 => ModRC case 33 => ModRC case 34 => ModR case 35 => Bad
    case 36 => ModRC case 37 => ModRC case 38 => ModR case 39 => Bad
    case 40 => ModC case 41 => ModC case 42 => DelRWC case 43 => Bad
    case 44 => Bad case 45 => Bad case 46 => Bad case 47 => Bad
    case 48 => Bad case 49 => Bad case 50 => Bad case 51 => Bad
    case 52 => Bad case 53 => Bad case 54 => Bad case 55 => Bad
    case 56 => Bad case 57 => Bad case 58 => Bad case 59 => Bad
    case 60 => Bad case 61 => Bad case 62 => Bad case 63 => Bad
    case _ => Bad
  }

  /** Rows 384 to 447: old events write+closed. */
  function Block6(j: nat): Row {
    match j
    case 0 => Skip case 1 => ModWC case 2 => ModW case 3 => Bad
    case 4 => ModRWC case 5 => ModRWC case 6 => ModRW case 7 => Bad
    case 8 => ModWC case 9 => ModWC case 10 => ModW case 11 => Bad
    case 12 => Bad case 13 => Bad case 14 => Bad case 15 => Bad
    case 16 => ModWC case 17 => ModWC case 18 => ModW case 19 => Bad
    case 20 => ModRWC case 21 => ModRWC case 22 => ModRW case 23 => Bad
    case 24 => ModWC case 25 => ModWC case 26 => ModW case 27 => Bad
    case 28 => Bad case 29 => Bad case 30 => Bad case 31 => Bad
    case 32 => ModC case 33 => ModC case 34 => DelWC case 35 => Bad
    case 36 => ModRC case 37 => ModRC case 38 => ModR case 39 => Bad
    case 40 => ModC case 41 => ModC case 42 => DelRWC case 43 => Bad
    case 44 => Bad case 45 => Bad case 46 => Bad case 47 => Bad
    case 48 => Bad case 49 => Bad case 50 => Bad case 51 => Bad
    case 52 => Bad case 53 => Bad case 54 => Bad case 55 => Bad
    case 56 => Bad case 57 => Bad case 58 => Bad case 59 => Bad
    case 60 => Bad case 61 => Bad case 62 => Bad case 63 => Bad
    case _ => Bad
  }

  /** Rows 448 to 511: old events read+write+closed. */
  function Block7(j: nat): Row {
    match j
    case 0 => Skip case 1 => ModRWC case 2 => ModRW case 3 => Bad
    case 4 => ModRWC case 5 => ModRWC case 6 => ModRW case 7 => Bad
    case 8 => ModWC case 9 => ModWC case 10 => ModW case 11 => Bad
    case 12 => Bad case 13 => Bad case 14 => Bad case 15 => Bad
    case 16 => ModRWC case 17 => ModRWC case 18 => ModRW case 19 => Bad
    case 20 => ModRWC case 21 => ModRWC case 22 => ModRW case 23 => Bad
    case 24 => ModWC case 25 => ModWC case 26 => ModW case 27 => Bad
    case 28 => Bad case 29 => Bad case 30 => Bad case 31 => Bad
    case 32 => ModRC case 33 => ModRC case 34 => ModR case 35 => Bad
    case 36 => ModRC case 37 => ModRC case 38 => ModR case 39 => Bad
    case 40 => ModC case 41 => ModC case 42 => DelRWC case 43 => Bad
    case 44 => Bad case 45 => Bad case 46 => Bad case 47 => Bad
    case 48 => Bad case 49 => Bad case 50 => Bad case 51 => Bad
    case 52 => Bad case 53 => Bad case 54 => Bad case 55 => Bad
    case 56 => Bad case 57 => Bad case 58 => Bad case 59 => Bad
    case 60 => Bad case 61 => Bad case 62 => Bad case 63 => Bad
    case _ => Bad
  }

  function Bit(b: bool, v: nat): nat { if b then v else 0 }

  /** Position in the table: bits 0-1 close change, 2-3 read, 4-5 write, 6-8 old events. */
  function Index(ch: Change): (i: nat)
    ensures i < 512
  {
    ch.close + 4 * ch.read + 16 * ch.write + Bit(ch.was.r, 64) + Bit(ch.was.w, 128) + Bit(ch.was.c, 256)
  }

  /** Row i of the table. */
  function OpTable(i: nat): Row
    requires i < 512
  {
    var j := i % 64;
    match i / 64
    case 0 => Block0(j)
    case 1 => Block1(j)
    case 2 => Block2(j)
    case 3 => Block3(j)
    case 4 => Block4(j)
    case 5 => Block5(j)
    case 6 => Block6(j)
    case _ => Block7(j)
  }

  // ----- what the table should say

  /** Is an event wanted after the change? */
  predicate Wants(was: bool, d: Delta) {
    d == EV_CHANGE_ADD || (d != EV_CHANGE_DEL && was)
  }

  function Wanted(ch: Change): Ev {
    Ev(Wants(ch.was.r, ch.read), Wants(ch.was.w, ch.write), Wants(ch.was.c, ch.close))
  }

  predicate NoOp(ch: Change) {
    ch.read == 0 && ch.write == 0 && ch.close == 0
  }

  predicate Sane(ch: Change) {
    ch.read < 3 && ch.write < 3 && ch.close < 3
  }

  /** Nothing for no change; add to an empty set, modify a non-empty one; delete when nothing is
      left, naming the events deleted. */
  function Rule(ch: Change): Row {
    if !Sane(ch) then Bad
    else if NoOp(ch) then Skip
    else if Wanted(ch) != NONE then Row(Wanted(ch), if ch.was == NONE then CtlAdd else CtlMod)
    else Row(Ev(ch.read == EV_CHANGE_DEL, ch.write == EV_CHANGE_DEL, ch.close == EV_CHANGE_DEL), CtlDel)
  }

  /** Rule on a position within a block of rows with the same old events. */
  ghost function RuleAt(was: Ev, j: nat): Row
    requires j < 64
  {
    Rule(Change(0, was, j / 4 % 4, j / 16, j % 4))
  }

  lemma Block0Right(j: nat)
    requires j < 64
    ensures Block0(j) == RuleAt(Ev(false, false, false), j)
  {
  }

  lemma Block1Right(j: nat)
    requires j < 64
    ensures Block1(j) == RuleAt(Ev(true, false, false), j)
  {
  }

  lemma Block2Right(j: nat)
    requires j < 64
    ensures Block2(j) == RuleAt(Ev(false, true, false), j)
  {
  }

  lemma Block3Right(j: nat)
    requires j < 64
    ensures Block3(j) == RuleAt(Ev(true, true, false), j)
  {
  }

  lemma Block4Right(j: nat)
    requires j < 64
    ensures Block4(j) == RuleAt(Ev(false, false, true), j)
  {
  }

  lemma Block5Right(j: nat)
    requires j < 64
    ensures Block5(j) == RuleAt(Ev(true, false, true), j)
  {
  }

  lemma Block6Right(j: nat)
    requires j < 64
    ensures Block6(j) == RuleAt(Ev(false, true, true), j)
  {
  }

  lemma Block7Right(j: nat)
    requires j < 64
    ensures Block7(j) == RuleAt(Ev(true, true, true), j)
  {
  }

  /** All 512 rows follow the rule. */
  lemma TableIsRule(ch: Change)
    ensures OpTable(Index(ch)) == Rule(ch)
  {
    var j := ch.close + 4 * ch.read + 16 * ch.write;
    assert Rule(ch) == RuleAt(ch.was, j) by {
      assert j % 4 == ch.close && j / 4 % 4 == ch.read && j / 16 == ch.write;
    }
    var b := Bit(ch.was.r, 1) + Bit(ch.was.w, 2) + Bit(ch.was.c, 4);
    assert Index(ch) / 64 == b && Index(ch) % 64 == j;
    match b
    case 0 => Block0Right(j);
    case 1 => Block1Right(j);
    case 2 => Block2Right(j);
    case 3 => Block3Right(j);
    case 4 => Block4Right(j);
    case 5 => Block5Right(j);
    case 6 => Block6Right(j);
    case _ => Block7Right(j);
  }
}
