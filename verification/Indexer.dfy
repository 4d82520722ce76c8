/**
  The event indexer of the anonymity revoker: batched scans of the chain write event rows
  and a checkpoint, with REPLACE semantics, and may be interrupted at any write.
 */
module Indexer {
  import opened Common
  import opened Words

  type Hash = nat
  type Key = nat

  // The logs of the contract in one block. Logs with an unknown topic are skipped.
  datatype Log = ShielderLog(txHash: Hash, macSalt: nat, macCommitment: nat) | OtherLog

  type Chain = seq<seq<Log>>

  datatype Row = Row(block: nat, macSalt: nat, macCommitment: nat, viewingKey: Option<Key>)

  // A log that becomes a row; its two words are reduced to field elements.
  datatype Entry = Entry(txHash: Hash, block: nat, macSalt: nat, macCommitment: nat)

  function ToRow(e: Entry): Row {
    Row(e.block, e.macSalt, e.macCommitment, None)
  }

  function Entries(logs: seq<Log>, block: nat): seq<Entry> {
    if logs == [] then [] else
    (match logs[0]
     case ShielderLog(h, s, c) => [Entry(h, block, s % R, c % R)]
     case OtherLog => [])
    + Entries(logs[1..], block)
  }

  // The entries of the blocks lo .. hi - 1, in order.
  function EntriesOf(chain: Chain, lo: nat, hi: nat): seq<Entry>
    requires hi <= |chain|
    decreases hi - lo
  {
    if lo >= hi then [] else EntriesOf(chain, lo, hi - 1) + Entries(chain[hi - 1], hi - 1)
  }

  // -------- the database --------

  datatype Write = Upsert(entry: Entry) | Checkpoint(block: nat)

  datatype Db = Db(events: map<Hash, Row>, checkpoint: Option<nat>)

  function Apply(db: Db, w: Write): Db {
    match w
    case Upsert(e) => db.(events := db.events[e.txHash := ToRow(e)])
    case Checkpoint(b) => db.(checkpoint := Some(b))
  }

  function ApplyAll(db: Db, ws: seq<Write>): Db {
    if ws == [] then db else Apply(ApplyAll(db, ws[..|ws| - 1]), ws[|ws| - 1])
  }

  function LastSeen(checkpoint: Option<nat>): nat {
    if checkpoint.Some? then checkpoint.value else 0
  }

  class Database {
    var events: map<Hash, Row>
    var checkpoint: Option<nat>

    constructor ()
      ensures View() == Db(map[], None)
    {
      events, checkpoint := map[], None;
    }

    ghost function View(): Db
      reads this
    {
      Db(events, checkpoint)
    }

    method UpsertEvent(e: Entry)
      modifies this
      ensures View() == Apply(old(View()), Upsert(e))
    {
      events := events[e.txHash := ToRow(e)];
    }

    method UpdateCheckpoint(block: nat)
      modifies this
      ensures View() == Apply(old(View()), Checkpoint(block))
    {
      checkpoint := Some(block);
    }

    method QueryCheckpoint() returns (block: nat)
      ensures block == LastSeen(checkpoint)
    {
      block := if checkpoint.Some? then checkpoint.value else 0;
    }
  }

  // -------- one run --------

  function Upserts(es: seq<Entry>): (ws: seq<Write>)
    ensures |ws| == |es|
  {
    seq(|es|, i requires 0 <= i < |es| => Upsert(es[i]))
  }

  // The writes of one batch: its rows, then the checkpoint.
  function BatchWrites(chain: Chain, first: nat, last: nat): seq<Write>
    requires last < |chain|
  {
    Upserts(EntriesOf(chain, first, last + 1)) + [Checkpoint(last)]
  }

  // The writes of a complete run that starts at block `start`.
  function RunWrites(chain: Chain, start: nat, height: nat, batchSize: nat): seq<Write>
    requires height < |chain| && batchSize >= 1
    decreases height + 1 - start
  {
    if start > height then []
    else BatchWrites(chain, start, Min(start + batchSize - 1, height))
         + RunWrites(chain, start + batchSize, height, batchSize)
  }

  lemma {:induction false} ApplyAllConcat(db: Db, a: seq<Write>, b: seq<Write>)
    ensures ApplyAll(db, a + b) == ApplyAll(ApplyAll(db, a), b)
    decreases b
  {
    if b == [] {
      assert a + b == a;
    } else {
      var n := |b| - 1;
      assert (a + b)[..|a| + n] == a + b[..n];
      ApplyAllConcat(db, a, b[..n]);
    }
  }

  method ProcessLogs(db: Database, chain: Chain, first: nat, last: nat)
    requires first <= last < |chain|
    modifies db
    ensures db.View() == ApplyAll(old(db.View()), Upserts(EntriesOf(chain, first, last + 1)))
  {
    ghost var done: seq<Entry> := [];
    ghost var start := db.View();
    for b := first to last + 1
      invariant done == EntriesOf(chain, first, b)
      invariant db.View() == ApplyAll(start, Upserts(done))
    {
      var logs := chain[b];
      ghost var before := done;
      for i := 0 to |logs|
        invariant done + Entries(logs[i..], b) == before + Entries(logs, b)
        invariant db.View() == ApplyAll(start, Upserts(done))
      {
        assert logs[i..][0] == logs[i] && logs[i..][1..] == logs[i + 1..];
        match logs[i] {
          case ShielderLog(h, s, c) =>
            var e := Entry(h, b, s % R, c % R);
            assert Upserts(done + [e])[..|done|] == Upserts(done);
            db.UpsertEvent(e);
            done := done + [e];
          case OtherLog =>
        }
      }
    }
  }

  method Run(db: Database, chain: Chain, fromBlock: nat, height: nat, batchSize: nat)
    requires height < |chain| && batchSize >= 1
    modifies db
    ensures db.View() == Complete(old(db.View()), chain, fromBlock, height, batchSize)
  {
    var lastSeenBlock := db.QueryCheckpoint();
    var block := Max(fromBlock, lastSeenBlock);
    ghost var start, begin := db.View(), block;
    ghost var written: seq<Write> := [];
    hide RunWrites, BatchWrites, ApplyAll, EntriesOf;
    RunNothing(start);
    while block <= height
      invariant written + RunWrites(chain, block, height, batchSize) == RunWrites(chain, begin, height, batchSize)
      invariant db.View() == ApplyAll(start, written)
      decreases height + 1 - block
    {
      var last := Min(block + batchSize - 1, height);
      ProcessLogs(db, chain, block, last);
      db.UpdateCheckpoint(last);
      BatchApplied(start, written, chain, block, last);
      RunUnfolds(chain, block, height, batchSize, written);
      written := written + BatchWrites(chain, block, last);
      block := block + batchSize;
    }
    RunOver(chain, block, height, batchSize);
    assert written + [] == written;
  }

  lemma RunNothing(db: Db)
    ensures ApplyAll(db, []) == db
  {
  }

  lemma RunOver(chain: Chain, block: nat, height: nat, batchSize: nat)
    requires height < |chain| && batchSize >= 1 && block > height
    ensures RunWrites(chain, block, height, batchSize) == []
  {
  }

  lemma RunUnfolds(chain: Chain, block: nat, height: nat, batchSize: nat, written: seq<Write>)
    requires height < |chain| && batchSize >= 1 && block <= height
    ensures written + RunWrites(chain, block, height, batchSize)
            == (written + BatchWrites(chain, block, Min(block + batchSize - 1, height)))
               + RunWrites(chain, block + batchSize, height, batchSize)
  {
  }

  lemma BatchApplied(db: Db, written: seq<Write>, chain: Chain, first: nat, last: nat)
    requires last < |chain|
    ensures ApplyAll(db, written + BatchWrites(chain, first, last))
            == Apply(ApplyAll(ApplyAll(db, written), Upserts(EntriesOf(chain, first, last + 1))), Checkpoint(last))
  {
    var upserts := Upserts(EntriesOf(chain, first, last + 1));
    var all := written + BatchWrites(chain, first, last);
    assert all == written + upserts + [Checkpoint(last)];
    assert all[..|all| - 1] == written + upserts;
    ApplyAllConcat(db, written, upserts);
  }

  function WritesFrom(db: Db, chain: Chain, fromBlock: nat, height: nat, batchSize: nat): seq<Write>
    requires height < |chain| && batchSize >= 1
  {
    RunWrites(chain, Max(fromBlock, LastSeen(db.checkpoint)), height, batchSize)
  }

  function Complete(db: Db, chain: Chain, fromBlock: nat, height: nat, batchSize: nat): Db
    requires height < |chain| && batchSize >= 1
  {
    ApplyAll(db, WritesFrom(db, chain, fromBlock, height, batchSize))
  }

  // The run stopped after its first k writes.
  function Interrupted(db: Db, chain: Chain, fromBlock: nat, height: nat, batchSize: nat, k: nat): Db
    requires height < |chain| && batchSize >= 1
    requires k <= |WritesFrom(db, chain, fromBlock, height, batchSize)|
  {
    ApplyAll(db, WritesFrom(db, chain, fromBlock, height, batchSize)[..k])
  }
}
