/** The persisted cursor of the latest accepting block. */
module Cursors {
  import opened Bytes

  /** The cursor as the chain processor handles it ... */
  datatype Cursor = Cursor(work: nat, hash: Hash, daa: nat)

  /** ... and as it is stored: blue work as 24 big-endian bytes. */
  datatype DbCursor = DbCursor(blueWork: Bytes, hash: Hash, daa: nat)

  predicate InRange(c: Cursor)
  {
    c.work < Pow256(WORK_LEN)
  }

  function ToDb(c: Cursor): DbCursor
  {
    DbCursor(ToBe(c.work, WORK_LEN), c.hash, c.daa)
  }

  function FromDb(c: DbCursor): Cursor
  {
    Cursor(BeValue(c.blueWork), c.hash, c.daa)
  }

  lemma CursorRoundTrip(c: Cursor)
    requires InRange(c)
    ensures FromDb(ToDb(c)) == c
  {
    ToBeValue(c.work, WORK_LEN);
  }

  /** A tip replaces the cursor only when its blue work is greater. */
  function Advance(prior: Option<Cursor>, c: Cursor): Cursor
  {
    if prior.None? || c.work > prior.value.work then c else prior.value
  }

  class Metadata {
    var accepting: Option<DbCursor>

    ghost predicate Valid()
      reads this
    {
      accepting.Some? ==> |accepting.value.blueWork| == WORK_LEN
    }

    ghost function Latest(): Option<Cursor>
      reads this
    {
      if accepting.Some? then Some(FromDb(accepting.value)) else None
    }

    constructor ()
      ensures Valid() && Latest() == None
    {
      accepting := None;
    }

    /** Comparing the stored bytes keeps the numerically greater work. */
    method SetLatestAcceptingBlockCursor(cursor: DbCursor)
      requires Valid() && |cursor.blueWork| == WORK_LEN
      modifies this
      ensures Valid() && Latest() == Some(Advance(old(Latest()), FromDb(cursor)))
      ensures accepting == Some(cursor) || accepting == old(accepting)
    {
      if accepting.None? {
        accepting := Some(cursor);
        return;
      }
      LexIsNumeric(accepting.value.blueWork, cursor.blueWork);
      if LexLess(accepting.value.blueWork, cursor.blueWork) {
        accepting := Some(cursor);
      }
    }
  }

  /** The cursor after committing `tips` one after the other. */
  function CursorAfter(tips: seq<Cursor>): Option<Cursor>
  {
    if tips == [] then None
    else Some(Advance(CursorAfter(tips[..|tips| - 1]), tips[|tips| - 1]))
  }

  /** `i` is the first index of greatest work. */
  predicate FirstGreatest(tips: seq<Cursor>, i: nat)
  {
    && i < |tips|
    && (forall j :: 0 <= j < |tips| ==> tips[j].work <= tips[i].work)
    && (forall j :: 0 <= j < i ==> tips[j].work < tips[i].work)
  }

  /** Over any history of commits, replays of older tips included, the cursor is
      the first committed tip of greatest blue work. */
  lemma {:induction false} CursorIsFirstGreatest(tips: seq<Cursor>) returns (i: nat)
    requires tips != []
    ensures FirstGreatest(tips, i) && CursorAfter(tips) == Some(tips[i])
  {
    var n := |tips| - 1;
    if n == 0 {
      i := 0;
      assert tips[..0] == [];
    } else {
      var k := CursorIsFirstGreatest(tips[..n]);
      i := if tips[n].work > tips[k].work then n else k;
      assert tips[..n][k] == tips[k];
      forall j | 0 <= j < |tips| ensures tips[j].work <= tips[i].work && (j < i ==> tips[j].work < tips[i].work) {
        if j < n { assert tips[..n][j] == tips[j]; }
      }
    }
  }

  /** Work in the cursor never goes down along a history. */
  lemma {:induction false} CursorMonotone(tips: seq<Cursor>, m: nat)
    requires 0 < m <= |tips|
    ensures CursorAfter(tips[..m]).Some? && CursorAfter(tips).Some?
    ensures CursorAfter(tips[..m]).value.work <= CursorAfter(tips).value.work
    decreases |tips|
  {
    if m < |tips| {
      CursorMonotone(tips[..|tips| - 1], m);
      assert tips[..|tips| - 1][..m] == tips[..m];
    } else {
      assert tips[..m] == tips;
    }
  }
}
