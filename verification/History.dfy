/** The write-behind chat history: messages wait as JSON strings in a Redis list and
    are flushed to MySQL in batches of one hundred rows inside one transaction.
    Nothing is pushed to the list between its being read and its being trimmed. */
module History {
  import opened Options
  import opened SqlText

  const BATCH_SIZE: nat := 100

  /** What a cached string is: a record, no JSON, or JSON without the expected fields. */
  datatype Cached = Rec(value: Record) | NotJson | NoFields

  /** The JSON library, for one of the two kinds of record. */
  datatype Json = Json(parse: string -> Cached, dump: Record -> string)

  ghost predicate Faithful(json: Json) {
    forall r: Record :: json.parse(json.dump(r)) == Rec(r)
  }

  /** Strings on which a flush throws: the group flush catches parse errors only, the
      private (`direct`) flush nothing. */
  predicate Fatal(direct: bool, c: Cached) {
    c.NoFields? || (direct && c.NotJson?)
  }

  function Records(c: Cached): seq<Record> {
    if c.Rec? then [c.value] else []
  }

  /** The records of a list, without the strings that are none. */
  function Parsed(json: Json, cached: seq<string>): seq<Record> {
    if cached == [] then [] else Records(json.parse(cached[0])) + Parsed(json, cached[1..])
  }

  lemma {:induction false} ParsedSplit(json: Json, a: seq<string>, b: seq<string>)
    ensures Parsed(json, a + b) == Parsed(json, a) + Parsed(json, b)
  {
    if a == [] {
      assert a + b == b;
    } else {
      assert (a + b)[0] == a[0] && (a + b)[1..] == a[1..] + b;
      ParsedSplit(json, a[1..], b);
    }
  }

  lemma ParsedStep(json: Json, cached: seq<string>, i: nat, j: nat)
    requires i <= j < |cached|
    ensures Parsed(json, cached[i..j + 1]) ==
      Parsed(json, cached[i..j]) + Records(json.parse(cached[j]))
  {
    assert cached[i..j + 1] == cached[i..j] + [cached[j]];
    ParsedSplit(json, cached[i..j], [cached[j]]);
    assert [cached[j]][1..] == [];
  }

  lemma JoinBatches(json: Json, cached: seq<string>, i: nat, end: nat)
    requires i <= end <= |cached|
    ensures Parsed(json, cached[..end]) == Parsed(json, cached[..i]) + Parsed(json, cached[i..end])
  {
    assert cached[..end] == cached[..i] + cached[i..end];
    ParsedSplit(json, cached[..i], cached[i..end]);
  }

  lemma Associate(a: string, b: string, c: string, d: string)
    ensures a + b + c + d == a + (b + c + d)
  {
  }

  /** Ids and timestamps are decimal numbers and dates: no quote, no backslash. */
  predicate WellFormed(json: Json, cached: seq<string>) {
    forall s :: s in cached && json.parse(s).Rec? ==> PlainIds(json.parse(s).value)
  }

  lemma {:induction false} ParsedIsPlain(json: Json, cached: seq<string>)
    requires WellFormed(json, cached)
    ensures forall r :: r in Parsed(json, cached) ==> PlainIds(r)
  {
    if cached == [] {
    } else {
      assert cached[0] in cached && forall s :: s in cached[1..] ==> s in cached;
      ParsedIsPlain(json, cached[1..]);
    }
  }

  /** Where the batch that starts at `i` ends. */
  function BatchEnd(cached: seq<string>, i: nat): (e: nat)
    requires i <= |cached|
    ensures i <= e <= |cached| && e - i <= BATCH_SIZE
    ensures i < |cached| ==> i < e
    ensures e < |cached| ==> e - i == BATCH_SIZE
  {
    if i + BATCH_SIZE <= |cached| then i + BATCH_SIZE else |cached|
  }

  /** Executing the statement of the batch at `i` succeeds: the server does not refuse it
      (`accepts(i)`), it has rows, and no NUL cuts it off. */
  predicate Inserts(json: Json, cached: seq<string>, i: nat, accepts: nat -> bool)
    requires i <= |cached|
  {
    var rows := Parsed(json, cached[i..BatchEnd(cached, i)]);
    accepts(i) && rows != [] && !SomeNul(rows)
  }

  predicate HitsFatal(direct: bool, json: Json, cached: seq<string>, i: nat)
    requires i <= |cached|
  {
    exists j :: i <= j < BatchEnd(cached, i) && Fatal(direct, json.parse(cached[j]))
  }

  /** How a flush ends, from the batch at `i` on. */
  function FateOf(direct: bool, json: Json, cached: seq<string>, i: nat, accepts: nat -> bool): Outcome
    requires i <= |cached|
    decreases |cached| - i
  {
    if i == |cached| then Committed
    else if HitsFatal(direct, json, cached, i) then Threw
    else if !Inserts(json, cached, i, accepts) then RolledBack
    else FateOf(direct, json, cached, BatchEnd(cached, i), accepts)
  }

  /** A table and one connection's transaction on it. */
  class Database {
    const header: string   // INSERT INTO ... VALUES
    var table: seq<Record>
    var uncommitted: seq<Record>

    constructor (header: string)
      ensures this.header == header && table == [] && uncommitted == []
    {
      this.header := header;
      table, uncommitted := [], [];
    }

    method StartTransaction()
      modifies `uncommitted
      ensures uncommitted == []
    {
      uncommitted := [];
    }

    /** Executes one statement, as a C string: a syntax error or a refusal changes nothing. */
    method Update(sql: string, accepts: bool) returns (success: bool)
      modifies `uncommitted
      ensures success <==> accepts && ReadInsert(header, CStr(sql)).Some?
      ensures uncommitted == if success then old(uncommitted) + ReadInsert(header, CStr(sql)).value else old(uncommitted)
    {
      var rows := ReadInsert(header, CStr(sql));
      success := accepts && rows.Some?;
      if success {
        uncommitted := uncommitted + rows.value;
      }
    }

    method Commit()
      modifies this
      ensures table == old(table) + old(uncommitted) && uncommitted == []
    {
      table, uncommitted := table + uncommitted, [];
    }

    method Rollback()
      modifies `uncommitted
      ensures uncommitted == []
    {
      uncommitted := [];
    }
  }

  datatype Outcome = NothingCached | NoConnection | RolledBack | Committed | Threw

  class CacheManager {
    const json: Json
    const db: Database
    var cache: seq<string>   // the Redis list

    ghost predicate Valid()
      reads this
    {
      Faithful(json) && WellFormed(json, cache) && NUL !in db.header
    }

    constructor (json: Json, db: Database)
      requires Faithful(json) && NUL !in db.header
      ensures Valid() && cache == [] && this.json == json && this.db == db
    {
      this.json, this.db, cache := json, db, [];
    }

    /** storePrivateMessageInCache and storeGroupMessageInCache; the callers pass
        decimal ids, and the timestamp is formatted by strftime. */
    method Store(first: string, second: string, message: string, timestamp: string)
      requires Valid() && Plain(first) && Plain(second) && Plain(timestamp)
      modifies this
      ensures Valid() && cache == old(cache) + [json.dump(Record(first, second, message, timestamp))]
      ensures Parsed(json, cache) == Parsed(json, old(cache)) + [Record(first, second, message, timestamp)]
    {
      var record := json.dump(Record(first, second, message, timestamp));
      ParsedSplit(json, cache, [record]);
      assert Parsed(json, [record]) == [Record(first, second, message, timestamp)] by { assert [record][1..] == []; }
      cache := cache + [record];
    }

    /** The text of one group batch, row by row: what is no JSON is skipped, and JSON without
        the expected fields throws. */
    method BuildStatement(cached: seq<string>, i: nat, end: nat) returns (sql: Option<string>)
      requires i <= end <= |cached|
      ensures sql.None? <==> exists j :: i <= j < end && Fatal(false, json.parse(cached[j]))
      ensures sql.Some? ==> sql.value == Statement(db.header, Parsed(json, cached[i..end]))
    {
      var text, first, j := db.header, true, i;
      assert cached[i..i] == [] && db.header + "" == db.header;
      while j < end
        invariant i <= j <= end && Built(cached, i, j, text, first) && NoneFatal(false, json, cached, i, j)
      {
        var record := json.parse(cached[j]);
        if record.NoFields? {
          return None;
        }
        OneMoreHarmless(false, json, cached, i, j);
        if record.Rec? {
          text, first := AppendRow(cached, i, j, text, first);
        } else {
          SkippedRow(cached, i, j, text, first);
        }
        j := j + 1;
      }
      return Some(text + ";");
    }

    /** The text of one private batch; the first string that is no record throws. */
    method BuildStrictStatement(cached: seq<string>, i: nat, end: nat) returns (sql: Option<string>)
      requires i <= end <= |cached|
      ensures sql.None? <==> exists j :: i <= j < end && Fatal(true, json.parse(cached[j]))
      ensures sql.Some? ==> sql.value == Statement(db.header, Parsed(json, cached[i..end]))
    {
      var text, first, j := db.header, true, i;
      assert cached[i..i] == [] && db.header + "" == db.header;
      while j < end
        invariant i <= j <= end && Built(cached, i, j, text, first) && NoneFatal(true, json, cached, i, j)
      {
        var record := json.parse(cached[j]);
        if !record.Rec? {
          return None;
        }
        OneMoreHarmless(true, json, cached, i, j);
        text, first := AppendRow(cached, i, j, text, first);
        j := j + 1;
      }
      return Some(text + ";");
    }

    /** The text holds the records of the strings from `i` up to `j`. */
    ghost predicate Built(cached: seq<string>, i: nat, j: nat, text: string, first: bool)
      requires i <= j <= |cached|
    {
      var rows := Parsed(json, cached[i..j]);
      text == db.header + Rows(rows) && (first <==> rows == [])
    }

    lemma SkippedRow(cached: seq<string>, i: nat, j: nat, text: string, first: bool)
      requires i <= j < |cached| && Built(cached, i, j, text, first) && !json.parse(cached[j]).Rec?
      ensures Built(cached, i, j + 1, text, first)
    {
      ParsedStep(json, cached, i, j);
      assert Parsed(json, cached[i..j]) + [] == Parsed(json, cached[i..j]);
    }

    method AppendRow(cached: seq<string>, i: nat, j: nat, text: string, first: bool) returns (text': string, first': bool)
      requires i <= j < |cached| && Built(cached, i, j, text, first) && json.parse(cached[j]).Rec?
      ensures Built(cached, i, j + 1, text', first')
    {
      var r := json.parse(cached[j]).value;
      ghost var rows := Parsed(json, cached[i..j]);
      assert Parsed(json, cached[i..j + 1]) == rows + [r] by { ParsedStep(json, cached, i, j); }
      RowsAppend(rows, r);
      var escapedMessage := EscapeSQLString(r.message);
      var comma := if first then "" else ",";
      var row := "('" + r.first + "', '" + r.second + "', '" + escapedMessage + "', '" + r.timestamp + "')";
      Associate(db.header, Rows(rows), comma, Row(r));
      text', first' := text + comma + row, false;
    }

    /** The statement of one batch is executed. */
    method InsertBatch(cached: seq<string>, i: nat, sql: string, accepts: nat -> bool) returns (success: bool)
      requires WellFormed(json, cached) && i <= |cached| && NUL !in db.header
      requires sql == Statement(db.header, Parsed(json, cached[i..BatchEnd(cached, i)]))
      modifies db`uncommitted
      ensures success <==> Inserts(json, cached, i, accepts)
      ensures db.uncommitted == old(db.uncommitted) +
        if success then Parsed(json, cached[i..BatchEnd(cached, i)]) else []
    {
      ghost var rows := Parsed(json, cached[i..BatchEnd(cached, i)]);
      assert forall r :: r in rows ==> PlainIds(r) by { ParsedIsPlain(json, cached[i..BatchEnd(cached, i)]); }
      SentRoundTrip(db.header, rows);
      success := db.Update(sql, accepts(i));
    }

    /** The batches of one transaction, in order, until one throws or fails.  The two
        flushes differ in how the text of a batch is built. */
    method InsertBatches(direct: bool, cached: seq<string>, accepts: nat -> bool) returns (outcome: Outcome)
      requires WellFormed(json, cached) && db.uncommitted == [] && NUL !in db.header
      modifies db`uncommitted
      ensures outcome == FateOf(direct, json, cached, 0, accepts)
      ensures outcome == Committed ==> db.uncommitted == Parsed(json, cached)
    {
      var i := 0;
      while i < |cached|
        invariant i <= |cached| && db.uncommitted == Parsed(json, cached[..i])
        invariant FateOf(direct, json, cached, i, accepts) == FateOf(direct, json, cached, 0, accepts)
      {
        var end, sql := BatchEnd(cached, i), None;
        if direct {
          sql := BuildStrictStatement(cached, i, end);
        } else {
          sql := BuildStatement(cached, i, end);
        }
        if sql.None? {
          return Threw;
        }
        var ok := InsertBatch(cached, i, sql.value, accepts);
        if !ok {
          return RolledBack;
        }
        JoinBatches(json, cached, i, end);
        i := end;
      }
      assert cached[..i] == cached;
      return Committed;
    }

    /** One transaction for all batches: rolled back when one fails, and left open when an
        exception escapes. */
    method Transact(direct: bool, cached: seq<string>, connected: bool, accepts: nat -> bool) returns (outcome: Outcome)
      requires WellFormed(json, cached) && NUL !in db.header
      modifies db
      ensures outcome == if !connected then NoConnection else Fate(direct, json, cached, accepts)
      ensures outcome == Committed || outcome == RolledBack ==> db.uncommitted == []
      ensures db.table == old(db.table) + (if outcome == Committed then Parsed(json, cached) else [])
    {
      if !connected {
        return NoConnection;
      }
      db.StartTransaction();
      FateExactly(direct, json, cached, 0, accepts);
      outcome := InsertBatches(direct, cached, accepts);
      if outcome == RolledBack {
        db.Rollback();
      } else if outcome == Committed {
        db.Commit();
      }
    }

    /** All or nothing: either the table gains every record of the list, in order and with
        its message intact, or it is unchanged.  The list is emptied first in any case. */
    method FlushGroupChatCache(connected: bool, accepts: nat -> bool) returns (outcome: Outcome)
      requires Valid()
      modifies this, db
      ensures Valid() && cache == []
      ensures outcome == if old(cache) == [] then NothingCached
        else if !connected then NoConnection else Fate(false, json, old(cache), accepts)
      ensures db.table == old(db.table) + (if outcome == Committed then Parsed(json, old(cache)) else [])
    {
      var cachedMessages := cache;
      if cachedMessages == [] {
        return NothingCached;
      }
      cache := [];
      outcome := Transact(false, cachedMessages, connected, accepts);
    }

    /** The same for the private list, where nothing guards the parse. */
    method FlushPrivateChatCache(connected: bool, accepts: nat -> bool) returns (outcome: Outcome)
      requires Valid()
      modifies this, db
      ensures Valid() && cache == []
      ensures outcome == if old(cache) == [] then NothingCached
        else if !connected then NoConnection else Fate(true, json, old(cache), accepts)
      ensures db.table == old(db.table) + (if outcome == Committed then Parsed(json, old(cache)) else [])
    {
      var cachedMessages := cache;
      if cachedMessages == [] {
        return NothingCached;
      }
      cache := [];
      outcome := Transact(true, cachedMessages, connected, accepts);
    }
  }

  predicate StartsBatch(k: int, i: int) {
    (k - i) % 100 == 0
  }

  /** Some string of the batch at `k` is a record. */
  predicate SomeParses(json: Json, cached: seq<string>, k: nat)
    requires k <= |cached|
  {
    exists j :: k <= j < BatchEnd(cached, k) && json.parse(cached[j]).Rec?
  }

  /** No record of the batch at `k` holds a NUL. */
  predicate NulFree(json: Json, cached: seq<string>, k: nat)
    requires k <= |cached|
  {
    forall j :: k <= j < BatchEnd(cached, k) && json.parse(cached[j]).Rec? ==> !HasNul(json.parse(cached[j]).value)
  }

  /** The batch at `k` gets in: the server accepts it, some string in it is a record, and
      no record in it holds a NUL. */
  predicate GetsIn(json: Json, cached: seq<string>, k: nat, accepts: nat -> bool)
    requires k <= |cached|
  {
    accepts(k) && SomeParses(json, cached, k) && NulFree(json, cached, k)
  }

  /** Every batch from `i` on gets in. */
  predicate AllGetIn(json: Json, cached: seq<string>, i: nat, accepts: nat -> bool) {
    forall k: nat :: i <= k < |cached| && StartsBatch(k, i) ==> GetsIn(json, cached, k, accepts)
  }

  predicate NoneFatal(direct: bool, json: Json, cached: seq<string>, i: nat, end: nat)
    requires end <= |cached|
  {
    forall j :: i <= j < end ==> !Fatal(direct, json.parse(cached[j]))
  }

  lemma OneMoreHarmless(direct: bool, json: Json, cached: seq<string>, i: nat, j: nat)
    requires i <= j < |cached| && NoneFatal(direct, json, cached, i, j) && !Fatal(direct, json.parse(cached[j]))
    ensures NoneFatal(direct, json, cached, i, j + 1)
  {
  }

  /** Every batch from `i` on that ends before `j` gets in. */
  predicate GetInBefore(json: Json, cached: seq<string>, j: nat, i: nat, accepts: nat -> bool)
    requires j <= |cached|
  {
    forall k: nat :: i <= k && k + 100 <= j && StartsBatch(k, i) ==> GetsIn(json, cached, k, accepts)
  }

  /** Some string is fatal, and every batch that ends before it gets in. */
  predicate Throws(direct: bool, json: Json, cached: seq<string>, i: nat, accepts: nat -> bool) {
    exists j: nat :: i <= j < |cached| && Fatal(direct, json.parse(cached[j])) && GetInBefore(json, cached, j, i, accepts)
  }

  /** How a flush of the list ends. */
  function Fate(direct: bool, json: Json, cached: seq<string>, accepts: nat -> bool): Outcome {
    if NoneFatal(direct, json, cached, 0, |cached|) && AllGetIn(json, cached, 0, accepts) then Committed
    else if Throws(direct, json, cached, 0, accepts) then Threw
    else RolledBack
  }

  /** The batches from `i` on are the one at `i` and those from its end on. */
  lemma NextBatch(cached: seq<string>, i: nat, k: nat)
    requires i < |cached| && i <= k < |cached|
    ensures StartsBatch(k, i) <==> k == i || (BatchEnd(cached, i) <= k && StartsBatch(k, BatchEnd(cached, i)))
  {
    if k < BatchEnd(cached, i) {
      assert 0 <= k - i < BATCH_SIZE;
    } else {
      assert k - i == (k - BatchEnd(cached, i)) + BATCH_SIZE;
    }
  }

  /** The records of a list, and which strings they come from. */
  lemma {:induction false} ParsedHolds(json: Json, cached: seq<string>, r: Record)
    ensures r in Parsed(json, cached) <==> exists j :: 0 <= j < |cached| && json.parse(cached[j]) == Rec(r)
  {
    if cached == [] {
    } else {
      ParsedHolds(json, cached[1..], r);
      if j :| 0 <= j < |cached| - 1 && json.parse(cached[1..][j]) == Rec(r) {
        assert json.parse(cached[j + 1]) == Rec(r);
      }
      if j :| 0 < j < |cached| && json.parse(cached[j]) == Rec(r) {
        assert json.parse(cached[1..][j - 1]) == Rec(r);
      }
    }
  }

  /** Executing the statement of a batch succeeds exactly when the batch gets in. */
  lemma InsertsExactlyWhen(json: Json, cached: seq<string>, i: nat, accepts: nat -> bool)
    requires i <= |cached|
    ensures Inserts(json, cached, i, accepts) <==> GetsIn(json, cached, i, accepts)
  {
    var end := BatchEnd(cached, i);
    var batch := cached[i..end];
    var rows := Parsed(json, batch);
    forall j | i <= j < end && json.parse(cached[j]).Rec?
      ensures json.parse(cached[j]).value in rows
    {
      assert batch[j - i] == cached[j];
      ParsedHolds(json, batch, json.parse(cached[j]).value);
    }
    forall r | r in rows
      ensures exists j :: i <= j < end && json.parse(cached[j]) == Rec(r)
    {
      ParsedHolds(json, batch, r);
      var j :| 0 <= j < |batch| && json.parse(batch[j]) == Rec(r);
      assert json.parse(cached[i + j]) == Rec(r);
    }
    if rows != [] { assert rows[0] in rows; }
  }

  /** How a flush ends, exactly. */
  lemma {:induction false} FateExactly(direct: bool, json: Json, cached: seq<string>, i: nat, accepts: nat -> bool)
    requires i <= |cached|
    ensures FateOf(direct, json, cached, i, accepts) ==
      if NoneFatal(direct, json, cached, i, |cached|) && AllGetIn(json, cached, i, accepts) then Committed
      else if Throws(direct, json, cached, i, accepts) then Threw else RolledBack
    decreases |cached| - i
  {
    if i == |cached| {
    } else {
      var end := BatchEnd(cached, i);
      InsertsExactlyWhen(json, cached, i, accepts);
      forall k: nat | i <= k < |cached|
        ensures StartsBatch(k, i) <==> k == i || (end <= k && StartsBatch(k, end))
      {
        NextBatch(cached, i, k);
      }
      if j: nat :| i <= j < end && Fatal(direct, json.parse(cached[j])) {
        assert GetInBefore(json, cached, j, i, accepts);
      } else {
        FateExactly(direct, json, cached, end, accepts);
        forall j: nat | end <= j < |cached|
          ensures GetInBefore(json, cached, j, i, accepts) <==>
            GetsIn(json, cached, i, accepts) && GetInBefore(json, cached, j, end, accepts)
        {
          assert StartsBatch(i, i) && i + BATCH_SIZE <= j;
        }
        assert GetsIn(json, cached, i, accepts) ==>
          (Throws(direct, json, cached, i, accepts) <==> Throws(direct, json, cached, end, accepts));
      }
    }
  }

  /** What throws: JSON without the fields out of either flush, what is no JSON out of the
      private one only; a group flush of anything else ends in a commit or a rollback. */
  lemma WhatThrows(json: Json, cached: seq<string>, accepts: nat -> bool)
    requires cached != []
    ensures json.parse(cached[0]).NoFields? ==>
      Fate(true, json, cached, accepts) == Fate(false, json, cached, accepts) == Threw
    ensures json.parse(cached[0]).NotJson? ==> Fate(true, json, cached, accepts) == Threw
    ensures (forall s :: s in cached ==> !json.parse(s).NoFields?) ==> Fate(false, json, cached, accepts) != Threw
    ensures (forall s :: s in cached ==> json.parse(s).Rec?) ==> Fate(true, json, cached, accepts) != Threw
  {
    assert GetInBefore(json, cached, 0, 0, accepts);
    assert forall j :: 0 <= j < |cached| ==> cached[j] in cached;
  }

  /** The server takes every batch of `n` rows. */
  predicate TakesAll(n: nat, accepts: nat -> bool) {
    forall k: nat :: k < n && StartsBatch(k, 0) ==> accepts(k)
  }

  /** When every string is a record, a flush commits exactly when the server takes every
      batch and no record holds a NUL, and does not throw. */
  lemma CleanListFate(direct: bool, json: Json, cached: seq<string>, records: seq<Record>, accepts: nat -> bool)
    requires |records| == |cached| && forall j :: 0 <= j < |cached| ==> json.parse(cached[j]) == Rec(records[j])
    ensures Fate(direct, json, cached, accepts) ==
      if TakesAll(|cached|, accepts) && !SomeNul(records) then Committed else RolledBack
  {
    forall k: nat | k < |cached| ensures SomeParses(json, cached, k) {
      assert json.parse(cached[k]).Rec?;
    }
    if !SomeNul(records) {
      forall k: nat | k < |cached| ensures NulFree(json, cached, k) {
        assert forall j :: 0 <= j < |records| ==> records[j] in records;
      }
    } else {
      var r :| r in records && HasNul(r);
      var j :| 0 <= j < |records| && records[j] == r;
      var k := j - j % BATCH_SIZE;
      assert StartsBatch(k, 0) && k <= j < BatchEnd(cached, k) && json.parse(cached[j]).Rec?;
      assert !NulFree(json, cached, k);
    }
  }

  /** What is stored is what arrives: from an empty list, the table gains exactly the
      stored messages, in order, when the server takes every hundred and none of them
      holds a NUL, and otherwise nothing; the private (`direct`) and the group flush agree
      on this. */
  method StoreAndFlush(m: CacheManager, records: seq<Record>, direct: bool, accepts: nat -> bool) returns (outcome: Outcome)
    requires m.Valid() && m.cache == [] && forall r :: r in records ==> PlainIds(r)
    modifies m, m.db
    ensures m.Valid() && m.cache == []
    ensures outcome == if records == [] then NothingCached
      else if TakesAll(|records|, accepts) && !SomeNul(records) then Committed else RolledBack
    ensures m.db.table == old(m.db.table) + (if outcome == Committed then records else [])
  {
    var i := 0;
    while i < |records|
      invariant i <= |records| && |m.cache| == i && m.Valid() && m.db.table == old(m.db.table)
      invariant Parsed(m.json, m.cache) == records[..i]
      invariant forall j :: 0 <= j < i ==> m.json.parse(m.cache[j]) == Rec(records[j])
    {
      var r := records[i];
      assert r in records;
      m.Store(r.first, r.second, r.message, r.timestamp);
      i := i + 1;
    }
    assert records[..i] == records;
    CleanListFate(direct, m.json, m.cache, records, accepts);
    if direct {
      outcome := m.FlushPrivateChatCache(true, accepts);
    } else {
      outcome := m.FlushGroupChatCache(true, accepts);
    }
  }
}
