/** Interrupting and restarting the indexer does not change what it finally writes. */
module Restart {
  import opened Common
  import opened Words
  import opened Indexer

  // -------- rows and entries --------

  function Upserted(events: map<Hash, Row>, es: seq<Entry>): map<Hash, Row> {
    if es == [] then events else
    var n := |es| - 1;
    Upserted(events, es[..n])[es[n].txHash := ToRow(es[n])]
  }

  // The row of the last entry of a transaction.
  function LastOf(es: seq<Entry>, t: Hash): Option<Row> {
    if es == [] then None else
    var n := |es| - 1;
    if es[n].txHash == t then Some(ToRow(es[n])) else LastOf(es[..n], t)
  }

  lemma {:induction false} UpsertedAt(events: map<Hash, Row>, es: seq<Entry>, t: Hash)
    ensures t in Upserted(events, es) <==> LastOf(es, t).Some? || t in events
    ensures t in Upserted(events, es) ==>
              Upserted(events, es)[t] == if LastOf(es, t).Some? then LastOf(es, t).value else events[t]
  {
    if es != [] {
      UpsertedAt(events, es[..|es| - 1], t);
    }
  }

  lemma {:induction false} LastOfConcat(a: seq<Entry>, b: seq<Entry>, t: Hash)
    ensures LastOf(a + b, t) == if LastOf(b, t).Some? then LastOf(b, t) else LastOf(a, t)
    decreases b
  {
    if b == [] {
      assert a + b == a;
    } else {
      var n := |b| - 1;
      assert (a + b)[..|a| + n] == a + b[..n];
      LastOfConcat(a, b[..n], t);
    }
  }

  lemma {:induction false} LastOfIsEntry(es: seq<Entry>, t: Hash) returns (e: Entry)
    requires LastOf(es, t).Some?
    ensures e in es && e.txHash == t && LastOf(es, t) == Some(ToRow(e))
  {
    var n := |es| - 1;
    if es[n].txHash == t {
      e := es[n];
    } else {
      e := LastOfIsEntry(es[..n], t);
    }
  }

  lemma {:induction false} EntryHasLast(es: seq<Entry>, e: Entry)
    requires e in es
    ensures LastOf(es, e.txHash).Some?
  {
    var n := |es| - 1;
    if es[n].txHash != e.txHash {
      assert es == es[..n] + [es[n]];
      EntryHasLast(es[..n], e);
    }
  }

  lemma {:induction false} ApplyUpserts(db: Db, es: seq<Entry>)
    ensures ApplyAll(db, Upserts(es)) == db.(events := Upserted(db.events, es))
  {
    if es != [] {
      var n := |es| - 1;
      assert Upserts(es)[..n] == Upserts(es[..n]);
      ApplyUpserts(db, es[..n]);
    }
  }

  // -------- entries and blocks --------

  lemma {:induction false} EntryBlock(logs: seq<Log>, block: nat, e: Entry)
    requires e in Entries(logs, block)
    ensures e.block == block
  {
    if e in Entries(logs[1..], block) {
      EntryBlock(logs[1..], block, e);
    }
  }

  lemma {:induction false} EntriesSplit(chain: Chain, lo: nat, mid: nat, hi: nat)
    requires lo <= mid <= hi <= |chain|
    ensures EntriesOf(chain, lo, hi) == EntriesOf(chain, lo, mid) + EntriesOf(chain, mid, hi)
    decreases hi - mid
  {
    if mid < hi {
      EntriesSplit(chain, lo, mid, hi - 1);
    }
  }

  lemma {:induction false} EntryRange(chain: Chain, lo: nat, hi: nat, e: Entry)
    requires lo <= hi <= |chain| && e in EntriesOf(chain, lo, hi)
    ensures lo <= e.block < hi
    decreases hi - lo
  {
    if e in Entries(chain[hi - 1], hi - 1) {
      EntryBlock(chain[hi - 1], hi - 1, e);
    } else {
      EntryRange(chain, lo, hi - 1, e);
    }
  }

  lemma EntryWider(chain: Chain, lo: nat, hi: nat, e: Entry, lo': nat, hi': nat)
    requires lo' <= lo <= hi <= hi' <= |chain| && e in EntriesOf(chain, lo, hi)
    ensures e in EntriesOf(chain, lo', hi')
  {
    EntriesSplit(chain, lo', lo, hi');
    EntriesSplit(chain, lo, hi, hi');
  }

  // All events of a transaction are in its block.
  ghost predicate OneBlockPerTx(chain: Chain) {
    forall e, f :: e in EntriesOf(chain, 0, |chain|) && f in EntriesOf(chain, 0, |chain|) && e.txHash == f.txHash ==>
      e.block == f.block
  }

  // A transaction with an entry among the blocks lo .. hi - 1 has none elsewhere.
  lemma NotElsewhere(chain: Chain, lo: nat, hi: nat, lo': nat, hi': nat, t: Hash)
    requires OneBlockPerTx(chain) && lo <= hi <= |chain| && lo' <= hi' <= |chain| && (hi <= lo' || hi' <= lo)
    requires LastOf(EntriesOf(chain, lo, hi), t).Some?
    ensures LastOf(EntriesOf(chain, lo', hi'), t).None?
  {
    if LastOf(EntriesOf(chain, lo', hi'), t).Some? {
      var e := LastOfIsEntry(EntriesOf(chain, lo, hi), t);
      var f := LastOfIsEntry(EntriesOf(chain, lo', hi'), t);
      EntryRange(chain, lo, hi, e);
      EntryRange(chain, lo', hi', f);
      EntryWider(chain, lo, hi, e, 0, |chain|);
      EntryWider(chain, lo', hi', f, 0, |chain|);
    }
  }

  // -------- the shape of an interrupted run --------

  // After k writes of a run from `start`: a prefix of its entries is written, and the
  // checkpoint, if it moved, is at a block all of whose entries are in that prefix.
  ghost predicate Shape(db: Db, db': Db, chain: Chain, start: nat, height: nat, m: nat, last: Option<nat>)
    requires height < |chain|
  {
    var es := EntriesOf(chain, start, height + 1);
    && m <= |es|
    && db' == Db(Upserted(db.events, es[..m]), if last.Some? then last else db.checkpoint)
    && (last.Some? ==> start <= last.value <= height && |EntriesOf(chain, start, last.value + 1)| <= m)
  }

  lemma {:induction false} UpsertedConcat(events: map<Hash, Row>, a: seq<Entry>, b: seq<Entry>)
    ensures Upserted(events, a + b) == Upserted(Upserted(events, a), b)
    decreases b
  {
    if b == [] {
      assert a + b == a;
    } else {
      var n := |b| - 1;
      assert (a + b)[..|a| + n] == a + b[..n];
      UpsertedConcat(events, a, b[..n]);
    }
  }

  lemma {:induction false} PrefixShape(db: Db, chain: Chain, start: nat, height: nat, batchSize: nat, k: nat)
    returns (m: nat, last: Option<nat>)
    requires height < |chain| && batchSize >= 1 && k <= |RunWrites(chain, start, height, batchSize)|
    ensures Shape(db, ApplyAll(db, RunWrites(chain, start, height, batchSize)[..k]), chain, start, height, m, last)
    decreases height + 1 - start
  {
    hide RunWrites, ApplyAll, EntriesOf, Upserted, Shape;
    if start > height {
      m, last := 0, None;
      RunOver(chain, start, height, batchSize);
      ShapeOfNothing(db, chain, start, height);
    } else {
      var end := Min(start + batchSize - 1, height);
      var batch := EntriesOf(chain, start, end + 1);
      var rest := RunWrites(chain, start + batchSize, height, batchSize);
      RunStarts(chain, start, height, batchSize);
      if k <= |batch| {
        m, last := k, None;
        ShapeWithinBatch(db, chain, start, end, height, k);
        assert (BatchWrites(chain, start, end) + rest)[..k] == Upserts(batch)[..k];
      } else {
        var j := k - |batch| - 1;
        var mid := Apply(ApplyAll(db, Upserts(batch)), Checkpoint(end));
        assert (BatchWrites(chain, start, end) + rest)[..k] == BatchWrites(chain, start, end) + rest[..j];
        BatchThen(db, chain, start, end, rest[..j]);
        ApplyUpserts(db, batch);
        var m', last' := PrefixShape(mid, chain, start + batchSize, height, batchSize, j);
        ShapeAfterBatch(db, mid, ApplyAll(mid, rest[..j]), chain, start, end, batchSize, height, m', last');
        m, last := |batch| + m', if last'.Some? then last' else Some(end);
      }
    }
  }

  lemma ShapeOfNothing(db: Db, chain: Chain, start: nat, height: nat)
    requires height < |chain|
    ensures Shape(db, ApplyAll(db, []), chain, start, height, 0, None)
  {
  }

  lemma RunStarts(chain: Chain, start: nat, height: nat, batchSize: nat)
    requires height < |chain| && batchSize >= 1 && start <= height
    ensures RunWrites(chain, start, height, batchSize)
            == BatchWrites(chain, start, Min(start + batchSize - 1, height))
               + RunWrites(chain, start + batchSize, height, batchSize)
  {
  }

  // The batches of a complete run tile its range: it writes every entry once and in order,
  // and leaves the checkpoint at the last block.
  lemma {:induction false} CompleteShape(db: Db, chain: Chain, start: nat, height: nat, batchSize: nat)
    requires height < |chain| && batchSize >= 1
    ensures ApplyAll(db, RunWrites(chain, start, height, batchSize))
            == Db(Upserted(db.events, EntriesOf(chain, start, height + 1)),
                  if start <= height then Some(height) else db.checkpoint)
    decreases height + 1 - start
  {
    hide RunWrites, BatchWrites, ApplyAll, EntriesOf, Upserted;
    if start <= height {
      var end := Min(start + batchSize - 1, height);
      var batch, rest := EntriesOf(chain, start, end + 1), EntriesOf(chain, start + batchSize, height + 1);
      RunStarts(chain, start, height, batchSize);
      BatchThen(db, chain, start, end, RunWrites(chain, start + batchSize, height, batchSize));
      ApplyUpserts(db, batch);
      CompleteShape(Db(Upserted(db.events, batch), Some(end)), chain, start + batchSize, height, batchSize);
      EntriesSplit(chain, start, end + 1, height + 1);
      RestEntries(chain, start, end, batchSize, height);
      UpsertedConcat(db.events, batch, rest);
    } else {
      EmptyRun(db, chain, start, height, batchSize);
    }
  }

  lemma EmptyRun(db: Db, chain: Chain, start: nat, height: nat, batchSize: nat)
    requires height < |chain| && batchSize >= 1 && start > height
    ensures ApplyAll(db, RunWrites(chain, start, height, batchSize)) == db
    ensures Upserted(db.events, EntriesOf(chain, start, height + 1)) == db.events
  {
  }

  lemma BatchThen(db: Db, chain: Chain, start: nat, end: nat, rest: seq<Write>)
    requires end < |chain|
    ensures ApplyAll(db, BatchWrites(chain, start, end) + rest)
            == ApplyAll(Apply(ApplyAll(db, Upserts(EntriesOf(chain, start, end + 1))), Checkpoint(end)), rest)
  {
    BatchApplied(db, [], chain, start, end);
    assert [] + BatchWrites(chain, start, end) == BatchWrites(chain, start, end);
    ApplyAllConcat(db, BatchWrites(chain, start, end), rest);
  }

  lemma ShapeWithinBatch(db: Db, chain: Chain, start: nat, end: nat, height: nat, k: nat)
    requires start <= end <= height < |chain| && k <= |EntriesOf(chain, start, end + 1)|
    ensures Shape(db, ApplyAll(db, Upserts(EntriesOf(chain, start, end + 1))[..k]), chain, start, height, k, None)
  {
    hide ApplyAll, EntriesOf, Upserted;
    var batch := EntriesOf(chain, start, end + 1);
    EntriesSplit(chain, start, end + 1, height + 1);
    assert Upserts(batch)[..k] == Upserts(batch[..k]);
    ApplyUpserts(db, batch[..k]);
    assert EntriesOf(chain, start, height + 1)[..k] == batch[..k];
  }

  lemma RestEntries(chain: Chain, start: nat, end: nat, batchSize: nat, height: nat)
    requires start <= end <= height < |chain| && batchSize >= 1 && end == Min(start + batchSize - 1, height)
    ensures EntriesOf(chain, end + 1, height + 1) == EntriesOf(chain, start + batchSize, height + 1)
  {
  }

  lemma ShapeAfterBatch(db: Db, mid: Db, db': Db, chain: Chain, start: nat, end: nat, batchSize: nat, height: nat,
                        m: nat, last: Option<nat>)
    requires start <= end <= height < |chain| && batchSize >= 1 && end == Min(start + batchSize - 1, height)
    requires mid == Db(Upserted(db.events, EntriesOf(chain, start, end + 1)), Some(end))
    requires Shape(mid, db', chain, start + batchSize, height, m, last)
    ensures Shape(db, db', chain, start, height, |EntriesOf(chain, start, end + 1)| + m,
                  if last.Some? then last else Some(end))
    ensures |EntriesOf(chain, start, height + 1)|
            == |EntriesOf(chain, start, end + 1)| + |EntriesOf(chain, start + batchSize, height + 1)|
  {
    hide EntriesOf, Upserted;
    var batch, rest := EntriesOf(chain, start, end + 1), EntriesOf(chain, start + batchSize, height + 1);
    EntriesSplit(chain, start, end + 1, height + 1);
    RestEntries(chain, start, end, batchSize, height);
    assert EntriesOf(chain, start, height + 1) == batch + rest;
    assert (batch + rest)[..|batch| + m] == batch + rest[..m];
    UpsertedConcat(db.events, batch, rest[..m]);
    if last.Some? {
      EntriesSplit(chain, start, end + 1, last.value + 1);
    }
  }

  // -------- restart safety --------

  function Strip(row: Row): Row {
    row.(viewingKey := None)
  }

  function StripAll(events: map<Hash, Row>): map<Hash, Row> {
    map t | t in events :: Strip(events[t])
  }

  // The rows of a single run over all blocks from `fromBlock` to `height`.
  function Reference(chain: Chain, fromBlock: nat, height: nat): map<Hash, Row>
    requires height < |chain|
  {
    Upserted(map[], EntriesOf(chain, fromBlock, height + 1))
  }

  // What holds of the database after any runs up to height `seen`: every block below the
  // checkpoint is indexed exactly, every transaction of the checkpoint block has a row, and
  // every row is that of an entry of the chain.
  ghost predicate Inv(db: Db, chain: Chain, fromBlock: nat, seen: nat)
    requires seen < |chain|
  {
    && (db.checkpoint.Some? ==>
          && fromBlock <= db.checkpoint.value <= seen
          && (forall t :: IndexedBelow(db, chain, fromBlock, db.checkpoint.value, t))
          && (forall t :: PresentAt(db, chain, db.checkpoint.value, t)))
    && (forall t :: t in db.events ==> FromChain(db.events[t], chain, fromBlock, seen, t))
  }

  ghost predicate IndexedBelow(db: Db, chain: Chain, fromBlock: nat, c: nat, t: Hash)
    requires c <= |chain|
  {
    var last := LastOf(EntriesOf(chain, fromBlock, c), t);
    last.Some? ==> t in db.events && Strip(db.events[t]) == last.value
  }

  ghost predicate PresentAt(db: Db, chain: Chain, c: nat, t: Hash)
    requires c < |chain|
  {
    LastOf(EntriesOf(chain, c, c + 1), t).Some? ==> t in db.events
  }

  ghost predicate FromChain(row: Row, chain: Chain, fromBlock: nat, seen: nat, t: Hash)
    requires seen < |chain|
  {
    exists e :: e in EntriesOf(chain, fromBlock, seen + 1) && e.txHash == t && Strip(row) == ToRow(e)
  }

  lemma EmptyInv(chain: Chain, fromBlock: nat)
    requires 0 < |chain|
    ensures Inv(Db(map[], None), chain, fromBlock, 0)
  {
  }

  lemma StartAt(db: Db, chain: Chain, fromBlock: nat, seen: nat)
    requires seen < |chain| && Inv(db, chain, fromBlock, seen)
    ensures var start := Max(fromBlock, LastSeen(db.checkpoint));
            start == if db.checkpoint.Some? then db.checkpoint.value else fromBlock
  {
  }

  // A complete run gives the rows of a single run, whatever happened before.
  lemma CompleteIsReference(db: Db, chain: Chain, fromBlock: nat, seen: nat, height: nat, batchSize: nat)
    requires seen <= height < |chain| && batchSize >= 1 && Inv(db, chain, fromBlock, seen)
    ensures StripAll(Complete(db, chain, fromBlock, height, batchSize).events) == Reference(chain, fromBlock, height)
  {
    StartAt(db, chain, fromBlock, seen);
    var start := Max(fromBlock, LastSeen(db.checkpoint));
    CompleteShape(db, chain, start, height, batchSize);
    var after := Complete(db, chain, fromBlock, height, batchSize).events;
    var reference := Reference(chain, fromBlock, height);
    hide Complete, Reference;
    forall t
      ensures t in after <==> t in reference
      ensures t in after ==> Strip(after[t]) == reference[t]
    {
      CompleteRow(db, chain, fromBlock, seen, height, start, t);
    }
    assert StripAll(after) == reference;
  }

  lemma CompleteRow(db: Db, chain: Chain, fromBlock: nat, seen: nat, height: nat, start: nat, t: Hash)
    requires seen <= height < |chain| && Inv(db, chain, fromBlock, seen)
    requires start == if db.checkpoint.Some? then db.checkpoint.value else fromBlock
    ensures var after := Upserted(db.events, EntriesOf(chain, start, height + 1));
            var reference := Upserted(map[], EntriesOf(chain, fromBlock, height + 1));
            && (t in after <==> t in reference)
            && (t in after ==> Strip(after[t]) == reference[t])
  {
    hide Upserted, EntriesOf, LastOf;
    var above, all := EntriesOf(chain, start, height + 1), EntriesOf(chain, fromBlock, height + 1);
    UpsertedAt(db.events, above, t);
    UpsertedAt(map[], all, t);
    if start <= height {
      EntriesSplit(chain, fromBlock, start, height + 1);
      LastOfConcat(EntriesOf(chain, fromBlock, start), above, t);
      NoEntries(chain, fromBlock, start, t);
      if db.checkpoint.Some? {
        assert IndexedBelow(db, chain, fromBlock, start, t);
      }
    }
    if t in db.events {
      assert FromChain(db.events[t], chain, fromBlock, seen, t);
      var e :| e in EntriesOf(chain, fromBlock, seen + 1) && e.txHash == t && Strip(db.events[t]) == ToRow(e);
      NoneAbove(chain, fromBlock, seen, e);
      EntryWider(chain, fromBlock, seen + 1, e, fromBlock, height + 1);
      EntryHasLast(all, e);
    }
    LastHasNoKey(above, t);
  }

  lemma {:induction false} LastHasNoKey(es: seq<Entry>, t: Hash)
    ensures LastOf(es, t).Some? ==> Strip(LastOf(es, t).value) == LastOf(es, t).value
  {
    if es != [] {
      LastHasNoKey(es[..|es| - 1], t);
    }
  }

  // -------- an interrupted run keeps the invariant --------

  lemma PrefixLast(es: seq<Entry>, m: nat, t: Hash)
    requires m <= |es| && LastOf(es[..m], t).Some?
    ensures LastOf(es, t).Some?
  {
    assert es == es[..m] + es[m..];
    LastOfConcat(es[..m], es[m..], t);
  }

  // A prefix of the entries from `start` that covers the blocks below c: the row of a
  // transaction below c is the one those blocks give it.
  lemma CoveredBelow(chain: Chain, start: nat, c: nat, height: nat, m: nat, t: Hash)
    requires OneBlockPerTx(chain) && start <= c <= height < |chain|
    requires |EntriesOf(chain, start, c)| <= m <= |EntriesOf(chain, start, height + 1)|
    requires LastOf(EntriesOf(chain, start, c), t).Some?
    ensures LastOf(EntriesOf(chain, start, height + 1)[..m], t) == LastOf(EntriesOf(chain, start, c), t)
  {
    hide EntriesOf, LastOf;
    var below, above := EntriesOf(chain, start, c), EntriesOf(chain, c, height + 1);
    EntriesSplit(chain, start, c, height + 1);
    var j := m - |below|;
    assert (below + above)[..m] == below + above[..j];
    LastOfConcat(below, above[..j], t);
    NotElsewhere(chain, start, c, c, height + 1, t);
    if LastOf(above[..j], t).Some? {
      PrefixLast(above, j, t);
    }
  }

  // The checkpoint block c itself lies in the prefix, so each of its transactions has a row.
  lemma CoveredAt(chain: Chain, start: nat, c: nat, height: nat, m: nat, t: Hash)
    requires start <= c <= height < |chain|
    requires |EntriesOf(chain, start, c + 1)| <= m <= |EntriesOf(chain, start, height + 1)|
    requires LastOf(EntriesOf(chain, c, c + 1), t).Some?
    ensures LastOf(EntriesOf(chain, start, height + 1)[..m], t).Some?
  {
    hide EntriesOf, LastOf;
    var upTo, above := EntriesOf(chain, start, c + 1), EntriesOf(chain, c + 1, height + 1);
    EntriesSplit(chain, start, c, c + 1);
    EntriesSplit(chain, start, c + 1, height + 1);
    LastOfConcat(EntriesOf(chain, start, c), EntriesOf(chain, c, c + 1), t);
    assert (upTo + above)[..m] == upTo + above[..m - |upTo|];
    LastOfConcat(upTo, above[..m - |upTo|], t);
  }

  // Entries from `start` on do not touch the transactions of the blocks before it.
  lemma UntouchedBefore(chain: Chain, fromBlock: nat, start: nat, height: nat, m: nat, t: Hash)
    requires OneBlockPerTx(chain) && fromBlock <= start <= height < |chain|
    requires m <= |EntriesOf(chain, start, height + 1)|
    requires LastOf(EntriesOf(chain, fromBlock, start), t).Some?
    ensures LastOf(EntriesOf(chain, start, height + 1)[..m], t).None?
  {
    hide EntriesOf, LastOf;
    NotElsewhere(chain, fromBlock, start, start, height + 1, t);
    if LastOf(EntriesOf(chain, start, height + 1)[..m], t).Some? {
      PrefixLast(EntriesOf(chain, start, height + 1), m, t);
    }
  }

  lemma KeptIndexed(db: Db, db': Db, chain: Chain, fromBlock: nat, start: nat, height: nat, m: nat, last: Option<nat>, t: Hash)
    requires OneBlockPerTx(chain) && fromBlock <= start <= height < |chain|
    requires Shape(db, db', chain, start, height, m, last) && db'.checkpoint.Some? && db'.checkpoint.value <= height
    requires if db.checkpoint.Some?
             then start == db.checkpoint.value && IndexedBelow(db, chain, fromBlock, start, t)
             else start == fromBlock
    ensures IndexedBelow(db', chain, fromBlock, db'.checkpoint.value, t)
  {
    hide EntriesOf, LastOf, Upserted;
    var es, c := EntriesOf(chain, start, height + 1), db'.checkpoint.value;
    UpsertedAt(db.events, es[..m], t);
    NoEntries(chain, fromBlock, start, t);
    if last.Some? {
      EntriesSplit(chain, fromBlock, start, c);
      EntriesSplit(chain, start, c, c + 1);
      LastOfConcat(EntriesOf(chain, fromBlock, start), EntriesOf(chain, start, c), t);
      if LastOf(EntriesOf(chain, start, c), t).Some? {
        CoveredBelow(chain, start, c, height, m, t);
        LastHasNoKey(EntriesOf(chain, start, c), t);
      }
    }
    if LastOf(EntriesOf(chain, fromBlock, start), t).Some? {
      UntouchedBefore(chain, fromBlock, start, height, m, t);
    }
  }

  lemma NoEntries(chain: Chain, lo: nat, hi: nat, t: Hash)
    requires hi <= |chain|
    ensures lo == hi ==> LastOf(EntriesOf(chain, lo, hi), t) == None
  {
  }

  lemma KeptPresent(db: Db, db': Db, chain: Chain, start: nat, height: nat, m: nat, last: Option<nat>, t: Hash)
    requires start <= height < |chain|
    requires Shape(db, db', chain, start, height, m, last) && db'.checkpoint.Some? && db'.checkpoint.value <= height
    requires last.None? ==> PresentAt(db, chain, db'.checkpoint.value, t)
    ensures PresentAt(db', chain, db'.checkpoint.value, t)
  {
    hide EntriesOf, LastOf, Upserted;
    var c := db'.checkpoint.value;
    UpsertedAt(db.events, EntriesOf(chain, start, height + 1)[..m], t);
    if last.Some? && LastOf(EntriesOf(chain, c, c + 1), t).Some? {
      CoveredAt(chain, start, c, height, m, t);
    }
  }

  lemma KeptFromChain(db: Db, db': Db, chain: Chain, fromBlock: nat, start: nat, seen: nat, height: nat, m: nat,
                      last: Option<nat>, t: Hash)
    requires fromBlock <= start && seen <= height < |chain|
    requires Shape(db, db', chain, start, height, m, last) && t in db'.events
    requires t in db.events ==> FromChain(db.events[t], chain, fromBlock, seen, t)
    ensures FromChain(db'.events[t], chain, fromBlock, height, t)
  {
    hide EntriesOf, LastOf, Upserted;
    var es := EntriesOf(chain, start, height + 1);
    UpsertedAt(db.events, es[..m], t);
    if LastOf(es[..m], t).Some? {
      var e := LastOfIsEntry(es[..m], t);
      InPrefix(es, m, e);
      NoneAbove(chain, start, height, e);
      EntryWider(chain, start, height + 1, e, fromBlock, height + 1);
      LastHasNoKey(es[..m], t);
    } else {
      var e :| e in EntriesOf(chain, fromBlock, seen + 1) && e.txHash == t && Strip(db.events[t]) == ToRow(e);
      NoneAbove(chain, fromBlock, seen, e);
      EntryWider(chain, fromBlock, seen + 1, e, fromBlock, height + 1);
    }
  }

  lemma InPrefix(es: seq<Entry>, m: nat, e: Entry)
    requires m <= |es| && e in es[..m]
    ensures e in es
  {
  }

  lemma NoneAbove(chain: Chain, lo: nat, last: nat, e: Entry)
    requires last < |chain| && e in EntriesOf(chain, lo, last + 1)
    ensures lo <= last
  {
  }

  // A run stopped after any number of its writes keeps the invariant.
  lemma InterruptedKeeps(db: Db, chain: Chain, fromBlock: nat, seen: nat, height: nat, batchSize: nat, k: nat)
    requires OneBlockPerTx(chain) && seen <= height < |chain| && batchSize >= 1 && Inv(db, chain, fromBlock, seen)
    requires k <= |WritesFrom(db, chain, fromBlock, height, batchSize)|
    ensures Inv(Interrupted(db, chain, fromBlock, height, batchSize, k), chain, fromBlock, height)
  {
    hide RunWrites, ApplyAll, EntriesOf, IndexedBelow, PresentAt, FromChain, OneBlockPerTx, Shape, LastOf, Upserted;
    var start := Max(fromBlock, LastSeen(db.checkpoint));
    var db' := Interrupted(db, chain, fromBlock, height, batchSize, k);
    var m, last := PrefixShape(db, chain, start, height, batchSize, k);
    CheckpointAfter(db, db', chain, start, height, m, last);
    if db'.checkpoint.Some? {
      forall t
        ensures IndexedBelow(db', chain, fromBlock, db'.checkpoint.value, t)
        ensures PresentAt(db', chain, db'.checkpoint.value, t)
      {
        KeptIndexed(db, db', chain, fromBlock, start, height, m, last, t);
        KeptPresent(db, db', chain, start, height, m, last, t);
      }
    }
    forall t | t in db'.events
      ensures FromChain(db'.events[t], chain, fromBlock, height, t)
    {
      KeptFromChain(db, db', chain, fromBlock, start, seen, height, m, last, t);
    }
  }

  lemma CheckpointAfter(db: Db, db': Db, chain: Chain, start: nat, height: nat, m: nat, last: Option<nat>)
    requires height < |chain| && Shape(db, db', chain, start, height, m, last)
    ensures db'.checkpoint == if last.Some? then last else db.checkpoint
    ensures last.Some? ==> start <= last.value <= height
  {
  }

  // Only the labels may differ: the invariant does not see them.
  lemma LabelsDoNotMatter(db: Db, db': Db, chain: Chain, fromBlock: nat, seen: nat)
    requires seen < |chain| && Inv(db, chain, fromBlock, seen)
    requires db'.checkpoint == db.checkpoint && StripAll(db'.events) == StripAll(db.events)
    ensures Inv(db', chain, fromBlock, seen)
  {
    hide EntriesOf, LastOf;
    assert db'.events.Keys == StripAll(db'.events).Keys == StripAll(db.events).Keys == db.events.Keys;
    forall t | t in db'.events
      ensures Strip(db'.events[t]) == Strip(db.events[t])
      ensures FromChain(db'.events[t], chain, fromBlock, seen, t)
    {
      assert StripAll(db'.events)[t] == StripAll(db.events)[t];
      assert FromChain(db.events[t], chain, fromBlock, seen, t);
    }
    if db.checkpoint.Some? {
      forall t
        ensures IndexedBelow(db', chain, fromBlock, db.checkpoint.value, t)
        ensures PresentAt(db', chain, db.checkpoint.value, t)
      {
        assert IndexedBelow(db, chain, fromBlock, db.checkpoint.value, t);
        assert PresentAt(db, chain, db.checkpoint.value, t);
      }
    }
  }

  // -------- the checkpoint block itself --------

  ghost predicate AllIndexedBelow(db: Db, chain: Chain, fromBlock: nat, end: nat)
    requires end <= |chain|
  {
    forall t :: IndexedBelow(db, chain, fromBlock, end, t)
  }

  // Every block up to and including the checkpoint is indexed exactly.
  ghost predicate ExactAtCheckpoint(db: Db, chain: Chain, fromBlock: nat) {
    db.checkpoint.Some? ==>
      db.checkpoint.value < |chain| && AllIndexedBelow(db, chain, fromBlock, db.checkpoint.value + 1)
  }

  // No transaction of the blocks from `fromBlock` on emits two different events.
  ghost predicate OneEventPerTx(chain: Chain, fromBlock: nat) {
    var es := EntriesOf(chain, fromBlock, |chain|);
    forall e, f :: e in es && f in es && e.txHash == f.txHash ==> e == f
  }

  lemma OneEventIsExact(db: Db, chain: Chain, fromBlock: nat, seen: nat)
    requires seen < |chain| && Inv(db, chain, fromBlock, seen) && OneEventPerTx(chain, fromBlock)
    ensures ExactAtCheckpoint(db, chain, fromBlock)
  {
    hide EntriesOf, LastOf;
    if db.checkpoint.Some? {
      var c := db.checkpoint.value;
      var end := c + 1;
      forall t
        ensures IndexedBelow(db, chain, fromBlock, end, t)
      {
        EntriesSplit(chain, fromBlock, c, c + 1);
        LastOfConcat(EntriesOf(chain, fromBlock, c), EntriesOf(chain, c, c + 1), t);
        if LastOf(EntriesOf(chain, fromBlock, c + 1), t).Some? {
          assert IndexedBelow(db, chain, fromBlock, c, t) && PresentAt(db, chain, c, t);
          var e := LastOfIsEntry(EntriesOf(chain, fromBlock, c + 1), t);
          EntryWider(chain, fromBlock, c + 1, e, fromBlock, |chain|);
          assert FromChain(db.events[t], chain, fromBlock, seen, t);
          var f :| f in EntriesOf(chain, fromBlock, seen + 1) && f.txHash == t && Strip(db.events[t]) == ToRow(f);
          EntryWider(chain, fromBlock, seen + 1, f, fromBlock, |chain|);
        }
      }
    }
  }

  // The database after a complete run to `height` followed by one to the same height,
  // stopped after k writes.
  function TwoRuns(chain: Chain, fromBlock: nat, height: nat, k: nat): Db
    requires height < |chain|
    requires k <= |WritesFrom(Complete(Db(map[], None), chain, fromBlock, height, 1), chain, fromBlock, height, 1)|
  {
    Interrupted(Complete(Db(map[], None), chain, fromBlock, height, 1), chain, fromBlock, height, 1, k)
  }

  // A transaction with two different events can be caught between them: after the second
  // run rewrote the first of its rows, the checkpoint block is no longer exact.
  lemma {:induction false} TwoEventsAreCaught(chain: Chain, fromBlock: nat, b: nat, i: nat)
    requires fromBlock <= b < |chain|
    requires i < |EntriesOf(chain, b, b + 1)|
    requires var e := EntriesOf(chain, b, b + 1)[i];
             LastOf(EntriesOf(chain, b, b + 1), e.txHash) != Some(ToRow(e))
    ensures i + 1 <= |WritesFrom(Complete(Db(map[], None), chain, fromBlock, b, 1), chain, fromBlock, b, 1)|
    ensures !ExactAtCheckpoint(TwoRuns(chain, fromBlock, b, i + 1), chain, fromBlock)
  {
    hide EntriesOf, LastOf, Upserted, ApplyAll, RunWrites;
    var once := Complete(Db(map[], None), chain, fromBlock, b, 1);
    CompleteShape(Db(map[], None), chain, fromBlock, b, 1);
    var es := EntriesOf(chain, b, b + 1);
    var e := es[i];
    RunStarts(chain, b, b, 1);
    RunOver(chain, b + 1, b, 1);
    var writes := WritesFrom(once, chain, fromBlock, b, 1);
    assert writes == Upserts(es) + [Checkpoint(b)];
    assert writes[..i + 1] == Upserts(es[..i + 1]);
    ApplyUpserts(once, es[..i + 1]);
    var twice := TwoRuns(chain, fromBlock, b, i + 1);
    EntriesSplit(chain, fromBlock, b, b + 1);
    LastOfConcat(EntriesOf(chain, fromBlock, b), es, e.txHash);
    EntryHasLast(es, e);
    UpsertedAt(once.events, es[..i + 1], e.txHash);
    LastAtEnd(es[..i + 1]);
    assert !IndexedBelow(twice, chain, fromBlock, b + 1, e.txHash);
  }

  lemma LastAtEnd(es: seq<Entry>)
    requires es != []
    ensures LastOf(es, es[|es| - 1].txHash) == Some(ToRow(es[|es| - 1]))
  {
  }

  // Where a transaction has two different events, one of them is not the last.
  lemma NotTheLast(chain: Chain, fromBlock: nat) returns (b: nat, i: nat)
    requires OneBlockPerTx(chain) && fromBlock <= |chain| && !OneEventPerTx(chain, fromBlock)
    ensures fromBlock <= b < |chain| && i < |EntriesOf(chain, b, b + 1)|
    ensures var e := EntriesOf(chain, b, b + 1)[i];
            LastOf(EntriesOf(chain, b, b + 1), e.txHash) != Some(ToRow(e))
  {
    hide EntriesOf, LastOf;
    var all := EntriesOf(chain, fromBlock, |chain|);
    var e, f :| e in all && f in all && e.txHash == f.txHash && e != f;
    EntryWider(chain, fromBlock, |chain|, e, 0, |chain|);
    EntryWider(chain, fromBlock, |chain|, f, 0, |chain|);
    b := e.block;
    EntryAtBlock(chain, fromBlock, e);
    EntryAtBlock(chain, fromBlock, f);
    var es := EntriesOf(chain, b, b + 1);
    if LastOf(es, e.txHash) != Some(ToRow(e)) {
      i :| i < |es| && es[i] == e;
    } else {
      i :| i < |es| && es[i] == f;
    }
  }

  lemma EntryAtBlock(chain: Chain, lo: nat, e: Entry)
    requires lo <= |chain| && e in EntriesOf(chain, lo, |chain|)
    ensures lo <= e.block < |chain| && e in EntriesOf(chain, e.block, e.block + 1)
  {
    hide EntriesOf;
    EntryRange(chain, lo, |chain|, e);
    EntriesSplit(chain, lo, e.block, |chain|);
    EntriesSplit(chain, e.block, e.block + 1, |chain|);
    if e in EntriesOf(chain, lo, e.block) {
      EntryRange(chain, lo, e.block, e);
    } else if e in EntriesOf(chain, e.block + 1, |chain|) {
      EntryRange(chain, e.block + 1, |chain|, e);
    }
  }

  // -------- the rows of a single run, read off the chain --------

  predicate LogOf(log: Log, t: Hash) {
    log.ShielderLog? && log.txHash == t
  }

  // Log i of block b is the last one of the transaction in the blocks lo .. hi - 1.
  ghost predicate LastLog(chain: Chain, lo: nat, hi: nat, b: nat, i: nat, t: Hash)
    requires hi <= |chain|
  {
    && lo <= b < hi && i < |chain[b]| && LogOf(chain[b][i], t)
    && (forall j :: i < j < |chain[b]| ==> !LogOf(chain[b][j], t))
    && (forall c, j :: b < c < hi && 0 <= j < |chain[c]| ==> !LogOf(chain[c][j], t))
  }

  ghost predicate NoLog(chain: Chain, lo: nat, hi: nat, t: Hash)
    requires hi <= |chain|
  {
    forall b, i :: lo <= b < hi && 0 <= i < |chain[b]| ==> !LogOf(chain[b][i], t)
  }

  function LogRow(log: Log, b: nat): Row
    requires log.ShielderLog?
  {
    Row(b, log.macSalt % R, log.macCommitment % R, None)
  }

  function RowAt(chain: Chain, b: nat, i: nat): Option<Row> {
    if b < |chain| && i < |chain[b]| && chain[b][i].ShielderLog? then Some(LogRow(chain[b][i], b)) else None
  }

  lemma {:induction false} BlockLast(logs: seq<Log>, b: nat, t: Hash) returns (i: nat)
    ensures match LastOf(Entries(logs, b), t)
            case None => forall j :: 0 <= j < |logs| ==> !LogOf(logs[j], t)
            case Some(row) =>
              && i < |logs| && LogOf(logs[i], t) && logs[i].ShielderLog? && row == LogRow(logs[i], b)
              && forall j :: i < j < |logs| ==> !LogOf(logs[j], t)
  {
    i := 0;
    if logs != [] {
      var rest := logs[1..];
      var k := BlockLast(rest, b, t);
      assert forall j :: 0 < j < |logs| ==> logs[j] == rest[j - 1];
      var head := match logs[0] case ShielderLog(h, s, c) => [Entry(h, b, s % R, c % R)] case OtherLog => [];
      LastOfConcat(head, Entries(rest, b), t);
      if LastOf(Entries(rest, b), t).Some? {
        i := k + 1;
      } else {
        OneEntry(head, t);
      }
    }
  }

  lemma OneEntry(es: seq<Entry>, t: Hash)
    requires |es| <= 1
    ensures LastOf(es, t) == if es != [] && es[0].txHash == t then Some(ToRow(es[0])) else None
  {
    if es != [] {
      assert es[..0] == [];
    }
  }

  lemma {:induction false} RangeLast(chain: Chain, lo: nat, hi: nat, t: Hash) returns (b: nat, i: nat)
    requires hi <= |chain|
    ensures match LastOf(EntriesOf(chain, lo, hi), t)
            case None => NoLog(chain, lo, hi, t)
            case Some(row) => LastLog(chain, lo, hi, b, i, t) && RowAt(chain, b, i) == Some(row)
    decreases hi
  {
    b, i := 0, 0;
    if lo < hi {
      hide LastOf, Entries, LastLog, NoLog, LogOf;
      LastOfConcat(EntriesOf(chain, lo, hi - 1), Entries(chain[hi - 1], hi - 1), t);
      var b', i' := RangeLast(chain, lo, hi - 1, t);
      var k := BlockLast(chain[hi - 1], hi - 1, t);
      if LastOf(Entries(chain[hi - 1], hi - 1), t).Some? {
        b, i := hi - 1, k;
        LastInLastBlock(chain, lo, hi, chain[hi - 1], k, t);
      } else {
        b, i := b', i';
        NotInLastBlock(chain, lo, hi, chain[hi - 1], b, i, t);
      }
    } else {
      NothingLast(t);
    }
  }

  lemma LastInLastBlock(chain: Chain, lo: nat, hi: nat, logs: seq<Log>, k: nat, t: Hash)
    requires lo < hi <= |chain| && logs == chain[hi - 1] && k < |logs| && LogOf(logs[k], t)
    requires forall j :: k < j < |logs| ==> !LogOf(logs[j], t)
    ensures LastLog(chain, lo, hi, hi - 1, k, t)
  {
  }

  lemma NotInLastBlock(chain: Chain, lo: nat, hi: nat, logs: seq<Log>, b: nat, i: nat, t: Hash)
    requires lo < hi <= |chain| && logs == chain[hi - 1] && forall j :: 0 <= j < |logs| ==> !LogOf(logs[j], t)
    ensures LastLog(chain, lo, hi - 1, b, i, t) ==> LastLog(chain, lo, hi, b, i, t)
    ensures NoLog(chain, lo, hi - 1, t) ==> NoLog(chain, lo, hi, t)
  {
  }

  lemma NothingLast(t: Hash)
    ensures LastOf([], t) == None
  {
  }

  // The rows of a single run: one for every transaction with a log in the range, with the
  // block, salt and commitment of the last of its logs, and no label.
  lemma ReferenceIsLastLogs(chain: Chain, fromBlock: nat, height: nat, t: Hash)
    requires height < |chain|
    ensures t !in Reference(chain, fromBlock, height) <==> NoLog(chain, fromBlock, height + 1, t)
    ensures t in Reference(chain, fromBlock, height) ==>
              exists b: nat, i: nat :: LastLog(chain, fromBlock, height + 1, b, i, t)
                                       && RowAt(chain, b, i) == Some(Reference(chain, fromBlock, height)[t])
  {
    hide EntriesOf, LastOf, Upserted;
    UpsertedAt(map[], EntriesOf(chain, fromBlock, height + 1), t);
    var b, i := RangeLast(chain, fromBlock, height + 1, t);
  }
}
