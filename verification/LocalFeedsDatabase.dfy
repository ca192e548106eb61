/** The message table of one subfeed and the lock in front of it.

  The primary key is the position, so the table is a map from position to message. A transaction either inserts its
  whole batch or changes nothing. */
module LocalFeedsDatabase {
  import opened Wrappers
  import opened SignedChain

  type Rows = map<int, SignedMessage>

  datatype ReadError = Unreadable

  /** The inserts of one transaction: a position that is already taken fails the whole batch. */
  function InsertAll(rows: Rows, messages: seq<SignedMessage>): Option<Rows>
    decreases |messages|
  {
    if messages == [] then Some(rows)
    else
      var m := messages[0];
      if m.body.messageNumber in rows then None
      else InsertAll(rows[m.body.messageNumber := m], messages[1..])
  }

  function CommitBatch(rows: Rows, messages: seq<SignedMessage>): (bool, Rows) {
    match InsertAll(rows, messages)
    case Some(inserted) => (true, inserted)
    case None => (false, rows)
  }

  predicate RowFits(rows: Rows, i: int) {
    i in rows && rows[i].body.messageNumber == i
  }

  /** Reading returns the rows in position order, and refuses a table with a gap or a misnumbered message. */
  function ReadRows(rows: Rows): Result<seq<SignedMessage>, ReadError> {
    if forall i :: 0 <= i < |rows| ==> RowFits(rows, i)
    then Ok(seq(|rows|, i requires 0 <= i < |rows| && RowFits(rows, i) => rows[i]))
    else Err(Unreadable)
  }

  // ---- Gaps

  function Range(n: nat): (s: set<int>)
    ensures |s| == n && forall i :: i in s <==> 0 <= i < n
  {
    if n == 0 then {} else Range(n - 1) + {n - 1}
  }

  /** A readable table has no other positions than those it returns. */
  lemma ReadableIsGapless(rows: Rows)
    requires ReadRows(rows).Ok?
    ensures forall p :: p in rows <==> 0 <= p < |ReadRows(rows).value|
    ensures forall p :: p in rows ==> ReadRows(rows).value[p] == rows[p]
  {
    var range := Range(|rows|);
    assert forall i :: i in range ==> RowFits(rows, i);
    SubsetOfSameSize(range, rows.Keys);
  }

  lemma {:induction false} SubsetOfSameSize(a: set<int>, b: set<int>)
    requires a <= b && |a| == |b|
    ensures a == b
  {
    assert |b - a| == |b| - |a|;
    assert b == a + (b - a);
  }

  /** Listing the positions in ascending order and comparing each with its index, as the query does, finds a gap
      exactly when some position below the number of rows is missing. */
  lemma AscendingListing(rows: Rows, positions: seq<int>)
    requires forall i, j :: 0 <= i < j < |positions| ==> positions[i] < positions[j]
    requires |positions| == |rows| && forall p :: p in rows <==> p in positions
    ensures (forall i :: 0 <= i < |positions| ==> positions[i] == i) <==> (forall i :: 0 <= i < |rows| ==> i in rows)
  {
    if forall i :: 0 <= i < |rows| ==> i in rows {
      var range := Range(|rows|);
      SubsetOfSameSize(range, rows.Keys);
      forall i | 0 <= i < |positions| ensures positions[i] == i {
        assert forall k :: 0 <= k < |positions| ==> positions[k] in rows && positions[k] in range;
        AtLeastIndex(positions, i);
        AtMostIndex(positions, i);
      }
    }
    if forall i :: 0 <= i < |positions| ==> positions[i] == i {
      forall i | 0 <= i < |rows| ensures i in rows {
        assert positions[i] == i;
      }
    }
  }

  lemma {:induction false} AtLeastIndex(s: seq<int>, i: nat)
    requires i < |s| && s[0] >= 0 && forall a, b :: 0 <= a < b < |s| ==> s[a] < s[b]
    ensures s[i] >= i
  {
    if i > 0 { AtLeastIndex(s, i - 1); }
  }

  lemma {:induction false} AtMostIndex(s: seq<int>, i: nat)
    requires i < |s| && s[|s| - 1] < |s| && forall a, b :: 0 <= a < b < |s| ==> s[a] < s[b]
    ensures s[i] <= i
    decreases |s| - i
  {
    if i + 1 < |s| { AtMostIndex(s, i + 1); }
  }

  // ---- What a transaction does to a readable table

  predicate NumberedFrom(batch: seq<SignedMessage>, first: int) {
    forall i :: 0 <= i < |batch| ==> batch[i].body.messageNumber == first + i
  }

  /** The primary key arbitrates: a batch numbered from inside the table is refused, one numbered from its end is
      appended whole. */
  lemma CommitAppendsOrRefuses(rows: Rows, log: seq<SignedMessage>, batch: seq<SignedMessage>, first: nat)
    requires ReadRows(rows) == Ok(log)
    requires batch != [] && NumberedFrom(batch, first) && first <= |log|
    ensures CommitBatch(rows, batch).0 <==> first == |log|
    ensures ReadRows(CommitBatch(rows, batch).1) == Ok(if first == |log| then log + batch else log)
  {
    ReadableIsGapless(rows);
    if first == |log| {
      InsertAllAppends(rows, log, batch);
    } else {
      assert batch[0].body.messageNumber in rows;
    }
  }

  lemma {:induction false} InsertAllAppends(rows: Rows, log: seq<SignedMessage>, batch: seq<SignedMessage>)
    requires ReadRows(rows) == Ok(log) && NumberedFrom(batch, |log|)
    ensures InsertAll(rows, batch).Some? && ReadRows(InsertAll(rows, batch).value) == Ok(log + batch)
    decreases |batch|
  {
    ReadableIsGapless(rows);
    if batch == [] {
      assert log + batch == log;
    } else {
      var m := batch[0];
      assert m.body.messageNumber == |log|;
      var more := rows[|log| := m];
      assert |more| == |rows| + 1;
      forall i | 0 <= i < |more| ensures RowFits(more, i) {
        assert i < |log| ==> RowFits(rows, i);
      }
      var longer := log + [m];
      assert ReadRows(more).value == longer;
      assert NumberedFrom(batch[1..], |longer|) by {
        forall i | 0 <= i < |batch[1..]| ensures batch[1..][i].body.messageNumber == |longer| + i {
          assert batch[1..][i] == batch[i + 1];
        }
      }
      InsertAllAppends(more, longer, batch[1..]);
      assert longer + batch[1..] == log + batch;
    }
  }

  /** Whatever the table held, a refused transaction clashes on some position and an accepted one adds exactly its
      batch. */
  lemma InsertAllMeaning(rows: Rows, batch: seq<SignedMessage>)
    ensures InsertAll(rows, batch).None? <==>
            (exists i :: 0 <= i < |batch| && batch[i].body.messageNumber in rows)
            || (exists i, j :: 0 <= i < j < |batch| && batch[i].body.messageNumber == batch[j].body.messageNumber)
    ensures InsertAll(rows, batch).Some? ==>
            var after := InsertAll(rows, batch).value;
            && (forall p :: p in rows ==> p in after && after[p] == rows[p])
            && (forall i :: 0 <= i < |batch| ==>
                  batch[i].body.messageNumber in after && after[batch[i].body.messageNumber] == batch[i])
            && |after| == |rows| + |batch|
  {
    InsertFailsIff(rows, batch);
    InsertAdds(rows, batch);
  }

  predicate Taken(rows: Rows, batch: seq<SignedMessage>) {
    exists i :: 0 <= i < |batch| && batch[i].body.messageNumber in rows
  }

  predicate Repeated(batch: seq<SignedMessage>) {
    exists i, j :: 0 <= i < j < |batch| && batch[i].body.messageNumber == batch[j].body.messageNumber
  }

  lemma TakenRest(rows: Rows, batch: seq<SignedMessage>)
    requires batch != []
    ensures var n := batch[0].body.messageNumber;
            Taken(rows, batch) || Repeated(batch) <==>
            n in rows || Taken(rows[n := batch[0]], batch[1..]) || Repeated(batch[1..])
  {
    var n, rest := batch[0].body.messageNumber, batch[1..];
    assert forall i :: 0 < i < |batch| ==> batch[i] == rest[i - 1];
    if Taken(rows[n := batch[0]], rest) {
      var i :| 0 <= i < |rest| && rest[i].body.messageNumber in rows[n := batch[0]];
      assert batch[i + 1].body.messageNumber in rows || batch[0].body.messageNumber == batch[i + 1].body.messageNumber;
    }
    if Repeated(rest) {
      var i, j :| 0 <= i < j < |rest| && rest[i].body.messageNumber == rest[j].body.messageNumber;
      assert batch[i + 1].body.messageNumber == batch[j + 1].body.messageNumber;
    }
    if Repeated(batch) {
      var i, j :| 0 <= i < j < |batch| && batch[i].body.messageNumber == batch[j].body.messageNumber;
      if i == 0 { assert rest[j - 1].body.messageNumber == n; }
      else { assert rest[i - 1].body.messageNumber == rest[j - 1].body.messageNumber; }
    }
    if Taken(rows, batch) {
      var i :| 0 <= i < |batch| && batch[i].body.messageNumber in rows;
      if i > 0 { assert rest[i - 1].body.messageNumber in rows[n := batch[0]]; }
    }
  }

  lemma {:induction false} InsertFailsIff(rows: Rows, batch: seq<SignedMessage>)
    ensures InsertAll(rows, batch).None? <==> Taken(rows, batch) || Repeated(batch)
    decreases |batch|
  {
    if batch != [] {
      TakenRest(rows, batch);
      InsertFailsIff(rows[batch[0].body.messageNumber := batch[0]], batch[1..]);
    }
  }

  predicate Added(rows: Rows, batch: seq<SignedMessage>, after: Rows) {
    && (forall p :: p in rows ==> p in after && after[p] == rows[p])
    && (forall i :: 0 <= i < |batch| ==>
          batch[i].body.messageNumber in after && after[batch[i].body.messageNumber] == batch[i])
    && |after| == |rows| + |batch|
  }

  lemma {:induction false} InsertAdds(rows: Rows, batch: seq<SignedMessage>)
    ensures InsertAll(rows, batch).Some? ==> Added(rows, batch, InsertAll(rows, batch).value)
    decreases |batch|
  {
    if batch != [] && batch[0].body.messageNumber !in rows {
      var more := rows[batch[0].body.messageNumber := batch[0]];
      InsertAdds(more, batch[1..]);
      if InsertAll(rows, batch).Some? { AddedOneMore(rows, more, batch, InsertAll(rows, batch).value); }
    }
  }

  lemma AddedOneMore(rows: Rows, more: Rows, batch: seq<SignedMessage>, after: Rows)
    requires batch != [] && batch[0].body.messageNumber !in rows && more == rows[batch[0].body.messageNumber := batch[0]]
    requires Added(more, batch[1..], after)
    ensures Added(rows, batch, after)
  {
    assert |more| == |rows| + 1;
    forall i | 0 <= i < |batch|
      ensures batch[i].body.messageNumber in after && after[batch[i].body.messageNumber] == batch[i]
    {
      if i > 0 { assert batch[1..][i - 1] == batch[i]; } else { assert batch[0].body.messageNumber in more; }
    }
  }

  // ---- The database object

  class Database {
    var rows: Rows

    constructor ()
      ensures rows == map[]
    {
      rows := map[];
    }

    /** Inserts message by message inside a transaction; closing the database without a commit rolls back. */
    method AppendSignedMessagesToSubfeed(messages: seq<SignedMessage>) returns (ok: bool)
      modifies this
      ensures (ok, rows) == CommitBatch(old(rows), messages)
    {
      var staged := rows;
      var i := 0;
      while i < |messages|
        invariant 0 <= i <= |messages|
        invariant InsertAll(rows, messages) == InsertAll(staged, messages[i..])
        invariant rows == old(rows)
      {
        var m := messages[i];
        assert messages[i..][0] == m && messages[i..][1..] == messages[i + 1..];
        if m.body.messageNumber in staged {
          return false;
        }
        staged := staged[m.body.messageNumber := m];
        i := i + 1;
      }
      rows := staged;
      ok := true;
    }

    method GetSignedSubfeedMessages() returns (r: Result<seq<SignedMessage>, ReadError>)
      ensures r == ReadRows(rows)
    {
      var ret := [];
      var i := 0;
      while i < |rows|
        invariant 0 <= i <= |rows| && |ret| == i
        invariant forall j :: 0 <= j < i ==> RowFits(rows, j) && ret[j] == rows[j]
      {
        if i !in rows || rows[i].body.messageNumber != i {
          assert !RowFits(rows, i);
          return Err(Unreadable);
        }
        ret := ret + [rows[i]];
        i := i + 1;
      }
      assert ReadRows(rows).Ok? && ret == ReadRows(rows).value;
      r := Ok(ret);
    }
  }

  // ---- The lock

  /** The lock taken around every database call. The histories record who asked and who was let in. */
  class DatabaseLock<Caller> {
    var locked: bool
    var waiters: seq<Caller>
    ghost var requested: seq<Caller>
    ghost var granted: seq<Caller>
    ghost var released: nat

    /** Callers are let in one at a time, in the order they asked, and nobody waits for a free lock. */
    ghost predicate Valid()
      reads this
    {
      && granted + waiters == requested
      && |granted| == released + (if locked then 1 else 0)
      && (!locked ==> waiters == [])
    }

    constructor ()
      ensures Valid() && !locked && requested == [] && granted == [] && released == 0
    {
      locked, waiters := false, [];
      requested, granted, released := [], [], 0;
    }

    method Acquire(caller: Caller) returns (entered: bool)
      requires Valid()
      modifies this
      ensures Valid() && locked && released == old(released)
      ensures requested == old(requested) + [caller]
      ensures entered == !old(locked)
      ensures granted == if entered then old(granted) + [caller] else old(granted)
    {
      requested := requested + [caller];
      if !locked {
        locked := true;
        granted := granted + [caller];
        return true;
      }
      waiters := waiters + [caller];
      entered := false;
    }

    method Release() returns (ok: bool)
      requires Valid()
      modifies this
      ensures Valid() && requested == old(requested)
      ensures ok == old(locked)
      ensures !ok ==> granted == old(granted) && released == old(released) && !locked
      ensures ok ==> released == old(released) + 1
      ensures ok && old(waiters) != [] ==> locked && granted == old(granted) + [old(waiters)[0]]
      ensures ok && old(waiters) == [] ==> !locked && granted == old(granted)
    {
      if !locked {
        return false;
      }
      locked := false;
      released := released + 1;
      if |waiters| > 0 {
        var next := waiters[0];
        waiters := waiters[1..];
        locked := true;
        granted := granted + [next];
      }
      ok := true;
    }
  }
}
