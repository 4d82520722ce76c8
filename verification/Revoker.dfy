/**
  The anonymity revoker: labelling event rows with the viewing key that explains their
  commitment, and the three commands (index, collect, revoke) in any mixture, each of them
  stopped at any point.
 */
module Revoker {
  import opened Common
  import opened Indexer
  import opened Restart
  import opened ViewingKeys

  type Hasher = (nat, Key) -> nat

  predicate Explains(row: Row, key: Key, hash: Hasher) {
    row.macCommitment == hash(row.macSalt, key)
  }

  function FirstMatch(row: Row, keys: seq<Key>, hash: Hasher): Option<Key> {
    if keys == [] then None
    else if Explains(row, keys[0], hash) then Some(keys[0])
    else FirstMatch(row, keys[1..], hash)
  }

  // The first listed key whose hash with the salt is the commitment, if there is one.
  lemma {:induction false} FirstMatchExact(row: Row, keys: seq<Key>, hash: Hasher)
    ensures match FirstMatch(row, keys, hash)
            case Some(k) =>
              exists i :: 0 <= i < |keys| && keys[i] == k && row.macCommitment == hash(row.macSalt, k)
                          && forall j :: 0 <= j < i ==> row.macCommitment != hash(row.macSalt, keys[j])
            case None => forall k :: k in keys ==> row.macCommitment != hash(row.macSalt, k)
  {
    if keys != [] {
      if Explains(row, keys[0], hash) {
        assert keys[0] == FirstMatch(row, keys, hash).value;
      } else {
        var rest := keys[1..];
        FirstMatchExact(row, rest, hash);
        assert keys == [keys[0]] + rest;
        if FirstMatch(row, rest, hash).Some? {
          var k := FirstMatch(row, rest, hash).value;
          var i :| 0 <= i < |rest| && rest[i] == k && row.macCommitment == hash(row.macSalt, k)
                   && forall j :: 0 <= j < i ==> row.macCommitment != hash(row.macSalt, rest[j]);
          assert keys[i + 1] == k;
          assert forall j :: 0 < j < i + 1 ==> keys[j] == rest[j - 1];
        }
      }
    }
  }

  function Labelled(row: Row, keys: seq<Key>, hash: Hasher): Row {
    if row.viewingKey.Some? then row else row.(viewingKey := FirstMatch(row, keys, hash))
  }

  // The table once the rows of the transactions in `done` were examined.
  function Revoked(events: map<Hash, Row>, keys: seq<Key>, hash: Hasher, done: set<Hash>): map<Hash, Row> {
    map t | t in events :: if t in done then Labelled(events[t], keys, hash) else events[t]
  }

  // The keys in the order in which the query lists them.
  ghost predicate IsOrder(order: seq<Key>, keys: set<Key>) {
    forall k :: k in order <==> k in keys
  }

  method QueryEvents(db: Database) returns (list: seq<(Hash, Row)>)
    ensures forall i :: 0 <= i < |list| ==> list[i].0 in db.events && list[i].1 == db.events[list[i].0]
    ensures forall t :: t in db.events ==> (t, db.events[t]) in list
  {
    list := [];
    var rest := db.events.Keys;
    while rest != {}
      invariant rest <= db.events.Keys
      invariant forall i :: 0 <= i < |list| ==> list[i].0 in db.events && list[i].1 == db.events[list[i].0]
      invariant forall t :: t in db.events && t !in rest ==> (t, db.events[t]) in list
      decreases rest
    {
      var t :| t in rest;
      list, rest := list + [(t, db.events[t])], rest - {t};
    }
  }

  // A complete revocation: every unlabelled row gets the first listed key that explains it.
  method Revoke(db: Database, table: KeyTable, hash: Hasher)
    modifies db
    ensures db.checkpoint == old(db.checkpoint)
    ensures exists order :: IsOrder(order, table.keys)
                            && db.events == Revoked(old(db.events), order, hash, old(db.events).Keys)
    ensures db.events.Keys == old(db.events).Keys
    ensures forall t :: t in db.events ==>
              && Strip(db.events[t]) == Strip(old(db.events)[t])
              && (old(db.events)[t].viewingKey.Some? ==> db.events[t] == old(db.events)[t])
              && (old(db.events)[t].viewingKey.None? && db.events[t].viewingKey.Some? ==>
                    && db.events[t].viewingKey.value in table.keys
                    && db.events[t].macCommitment == hash(db.events[t].macSalt, db.events[t].viewingKey.value))
              && (db.events[t].viewingKey.None? ==>
                    forall k :: k in table.keys ==> db.events[t].macCommitment != hash(db.events[t].macSalt, k))
  {
    var keys := table.QueryViewingKeys();
    var events := QueryEvents(db);
    ghost var before := db.events;
    ghost var done: set<Hash> := {};
    for i := 0 to |events|
      invariant db.checkpoint == old(db.checkpoint)
      invariant db.events == Revoked(before, keys, hash, done)
      invariant forall j :: 0 <= j < i ==> events[j].0 in done
    {
      var (t, row) := events[i];
      if row.viewingKey.None? {
        ghost var found := false;
        var j := 0;
        while j < |keys|
          invariant j <= |keys|
          invariant FirstMatch(row, keys, hash) == FirstMatch(row, keys[j..], hash)
          invariant db.checkpoint == old(db.checkpoint)
          invariant db.events == Revoked(before, keys, hash, done)
          invariant !found
        {
          assert keys[j..][0] == keys[j] && keys[j..][1..] == keys[j + 1..];
          if Explains(row, keys[j], hash) {
            db.events := db.events[t := row.(viewingKey := Some(keys[j]))];
            found := true;
            break;
          }
          j := j + 1;
        }
        assert !found ==> FirstMatch(row, keys, hash) == None;
      }
      done := done + {t};
    }
    assert Revoked(before, keys, hash, done) == Revoked(before, keys, hash, before.Keys) by {
      forall t | t in before
        ensures t in done
      {
        var j :| 0 <= j < |events| && events[j] == (t, before[t]);
      }
    }
    assert IsOrder(keys, table.keys);
    forall t | t in before
      ensures match FirstMatch(before[t], keys, hash)
              case Some(k) => k in keys && before[t].macCommitment == hash(before[t].macSalt, k)
              case None => forall k :: k in keys ==> before[t].macCommitment != hash(before[t].macSalt, k)
    {
      FirstMatchExact(before[t], keys, hash);
    }
  }

  // -------- sessions --------

  datatype World = World(chain: Chain, txs: Txs, fromEvents: nat, fromKeys: nat, decrypt: nat -> Key, hash: Hasher)

  ghost predicate ValidWorld(w: World) {
    0 < |w.chain| == |w.txs| && OneBlockPerTx(w.chain)
  }

  datatype Store = Store(db: Db, keyDb: KeyDb)

  const EmptyStore := Store(Db(map[], None), KeyDb({}, None))

  // One command, stopped after some of its writes or, for a revocation, after it examined
  // the rows in `done`. A collection goes on without the blocks that the provider did not
  // return.
  datatype Command =
    | IndexCmd(height: nat, batchSize: nat, writes: nat)
    | CollectCmd(height: nat, missing: set<nat>, writes: nat)
    | RevokeCmd(order: seq<Key>, done: set<Hash>)

  // The chain only grows: no command sees a height below one seen before.
  ghost predicate Enabled(w: World, s: Store, seen: nat, c: Command) {
    match c
    case IndexCmd(height, batchSize, writes) =>
      && seen <= height < |w.chain| && batchSize >= 1
      && writes <= |WritesFrom(s.db, w.chain, w.fromEvents, height, batchSize)|
    case CollectCmd(height, missing, writes) =>
      && seen <= height < |w.txs|
      && writes <= |CollectWrites(s.keyDb, w.txs, w.fromKeys, height, w.decrypt, missing)|
    case RevokeCmd(order, done) =>
      IsOrder(order, s.keyDb.keys)
  }

  ghost function Step(w: World, s: Store, seen: nat, c: Command): Store
    requires Enabled(w, s, seen, c)
  {
    match c
    case IndexCmd(height, batchSize, writes) =>
      s.(db := Interrupted(s.db, w.chain, w.fromEvents, height, batchSize, writes))
    case CollectCmd(height, missing, writes) =>
      s.(keyDb := Collected(s.keyDb, w.txs, w.fromKeys, height, w.decrypt, missing, writes))
    case RevokeCmd(order, done) =>
      s.(db := s.db.(events := Revoked(s.db.events, order, w.hash, done)))
  }

  function Seen(seen: nat, c: Command): nat {
    if c.RevokeCmd? then seen else c.height
  }

  function SeenAfter(seen: nat, cs: seq<Command>): nat
    decreases cs
  {
    if cs == [] then seen else SeenAfter(Seen(seen, cs[0]), cs[1..])
  }

  // The blocks that some collection did not get.
  function Lost(cs: seq<Command>): set<nat> {
    if cs == [] then {} else (if cs[0].CollectCmd? then cs[0].missing else {}) + Lost(cs[1..])
  }

  ghost predicate Session(w: World, s: Store, seen: nat, cs: seq<Command>)
    decreases cs
  {
    cs == [] || (Enabled(w, s, seen, cs[0]) && Session(w, Step(w, s, seen, cs[0]), Seen(seen, cs[0]), cs[1..]))
  }

  ghost function After(w: World, s: Store, seen: nat, cs: seq<Command>): Store
    requires Session(w, s, seen, cs)
    decreases cs
  {
    if cs == [] then s else After(w, Step(w, s, seen, cs[0]), Seen(seen, cs[0]), cs[1..])
  }

  // -------- what every session keeps --------

  // A label is a collected key that explains the commitment of its row.
  ghost predicate LabelsTrue(w: World, s: Store) {
    forall t :: t in s.db.events && s.db.events[t].viewingKey.Some? ==>
      && s.db.events[t].viewingKey.value in s.keyDb.keys
      && s.db.events[t].macCommitment == w.hash(s.db.events[t].macSalt, s.db.events[t].viewingKey.value)
  }

  ghost predicate StoreInv(w: World, s: Store, seen: nat, lost: set<nat>)
    requires seen < |w.chain| == |w.txs|
  {
    && Inv(s.db, w.chain, w.fromEvents, seen)
    && KeyInv(s.keyDb, w.txs, w.fromKeys, seen, w.decrypt, lost)
    && LabelsTrue(w, s)
  }

  // An index run either leaves a row alone or writes it without a label.
  lemma IndexedRow(db: Db, chain: Chain, fromBlock: nat, height: nat, batchSize: nat, k: nat, t: Hash)
    requires height < |chain| && batchSize >= 1 && k <= |WritesFrom(db, chain, fromBlock, height, batchSize)|
    requires t in Interrupted(db, chain, fromBlock, height, batchSize, k).events
    ensures var row := Interrupted(db, chain, fromBlock, height, batchSize, k).events[t];
            row.viewingKey.None? || (t in db.events && row == db.events[t])
  {
    hide RunWrites, ApplyAll, EntriesOf, LastOf, Upserted;
    var start := Max(fromBlock, LastSeen(db.checkpoint));
    var m, last := PrefixShape(db, chain, start, height, batchSize, k);
    var es := EntriesOf(chain, start, height + 1);
    UpsertedAt(db.events, es[..m], t);
    LastHasNoKey(es[..m], t);
  }

  lemma RowWider(chain: Chain, fromBlock: nat, seen: nat, height: nat, row: Row, t: Hash)
    requires seen <= height < |chain| && FromChain(row, chain, fromBlock, seen, t)
    ensures FromChain(row, chain, fromBlock, height, t)
  {
    hide EntriesOf;
    var e :| e in EntriesOf(chain, fromBlock, seen + 1) && e.txHash == t && Strip(row) == ToRow(e);
    NoneAbove(chain, fromBlock, seen, e);
    EntryWider(chain, fromBlock, seen + 1, e, fromBlock, height + 1);
  }

  lemma InvWider(db: Db, chain: Chain, fromBlock: nat, seen: nat, height: nat)
    requires seen <= height < |chain| && Inv(db, chain, fromBlock, seen)
    ensures Inv(db, chain, fromBlock, height)
  {
    hide FromChain, IndexedBelow, PresentAt;
    forall t | t in db.events
      ensures FromChain(db.events[t], chain, fromBlock, height, t)
    {
      RowWider(chain, fromBlock, seen, height, db.events[t], t);
    }
  }

  lemma StepKeeps(w: World, s: Store, seen: nat, lost: set<nat>, c: Command)
    requires ValidWorld(w) && seen < |w.chain| && StoreInv(w, s, seen, lost) && Enabled(w, s, seen, c)
    ensures StoreInv(w, Step(w, s, seen, c), Seen(seen, c), lost + if c.CollectCmd? then c.missing else {})
  {
    hide Inv, KeyInv, OneBlockPerTx, Interrupted, Collected;
    assert lost + {} == lost;
    match c
    case IndexCmd(height, batchSize, writes) =>
      InterruptedKeeps(s.db, w.chain, w.fromEvents, seen, height, batchSize, writes);
      KeyInvWider(w, s.keyDb, seen, height, lost);
      forall t | t in Step(w, s, seen, c).db.events
        ensures var row := Step(w, s, seen, c).db.events[t];
                row.viewingKey.None? || (t in s.db.events && row == s.db.events[t])
      {
        IndexedRow(s.db, w.chain, w.fromEvents, height, batchSize, writes, t);
      }
    case CollectCmd(height, missing, writes) =>
      InvWider(s.db, w.chain, w.fromEvents, seen, height);
      CollectedKeeps(s.keyDb, w.txs, w.fromKeys, seen, height, w.decrypt, missing, lost, writes);
    case RevokeCmd(order, done) =>
      RevokeKeeps(w, s, seen, lost, order, done);
  }

  lemma KeyInvWider(w: World, db: KeyDb, seen: nat, height: nat, lost: set<nat>)
    requires seen <= height < |w.txs| && KeyInv(db, w.txs, w.fromKeys, seen, w.decrypt, lost)
    ensures KeyInv(db, w.txs, w.fromKeys, height, w.decrypt, lost)
  {
    OnlyWider(db, w.txs, w.fromKeys, seen, height, w.decrypt);
  }

  lemma RevokeKeeps(w: World, s: Store, seen: nat, lost: set<nat>, order: seq<Key>, done: set<Hash>)
    requires ValidWorld(w) && seen < |w.chain| && StoreInv(w, s, seen, lost) && IsOrder(order, s.keyDb.keys)
    ensures StoreInv(w, s.(db := s.db.(events := Revoked(s.db.events, order, w.hash, done))), seen, lost)
  {
    hide Inv, KeyInv, OneBlockPerTx, FirstMatch;
    var db' := s.db.(events := Revoked(s.db.events, order, w.hash, done));
    forall t | t in s.db.events
      ensures match FirstMatch(s.db.events[t], order, w.hash)
              case Some(k) => k in order && s.db.events[t].macCommitment == w.hash(s.db.events[t].macSalt, k)
              case None => true
    {
      FirstMatchExact(s.db.events[t], order, w.hash);
    }
    assert StripAll(db'.events) == StripAll(s.db.events);
    LabelsDoNotMatter(s.db, db', w.chain, w.fromEvents, seen);
  }

  lemma {:induction false} SessionKeeps(w: World, s: Store, seen: nat, lost: set<nat>, cs: seq<Command>)
    requires ValidWorld(w) && seen < |w.chain| && StoreInv(w, s, seen, lost) && Session(w, s, seen, cs)
    ensures SeenAfter(seen, cs) < |w.chain| && StoreInv(w, After(w, s, seen, cs), SeenAfter(seen, cs), lost + Lost(cs))
    decreases cs
  {
    hide StoreInv, Step;
    if cs == [] {
      assert lost + {} == lost;
    } else {
      var missing := if cs[0].CollectCmd? then cs[0].missing else {};
      StepKeeps(w, s, seen, lost, cs[0]);
      SessionKeeps(w, Step(w, s, seen, cs[0]), Seen(seen, cs[0]), lost + missing, cs[1..]);
      assert lost + missing + Lost(cs[1..]) == lost + Lost(cs);
    }
  }

  lemma EmptyStoreInv(w: World)
    requires ValidWorld(w)
    ensures StoreInv(w, EmptyStore, 0, {})
  {
    EmptyInv(w.chain, w.fromEvents);
  }

  // In every state any session reaches, a label is a collected key that explains its row.
  lemma LabelsAlwaysTrue(w: World, cs: seq<Command>)
    requires ValidWorld(w) && Session(w, EmptyStore, 0, cs)
    ensures var s := After(w, EmptyStore, 0, cs);
            forall t :: t in s.db.events && s.db.events[t].viewingKey.Some? ==>
              && s.db.events[t].viewingKey.value in s.keyDb.keys
              && s.db.events[t].macCommitment == w.hash(s.db.events[t].macSalt, s.db.events[t].viewingKey.value)
  {
    EmptyStoreInv(w);
    SessionKeeps(w, EmptyStore, 0, {}, cs);
  }

  // After any session, one complete index run gives the rows of a single uninterrupted run
  // over an empty database, whatever the batch sizes.
  lemma RestartSafe(w: World, cs: seq<Command>, height: nat, batchSize: nat, batchSize': nat)
    requires ValidWorld(w) && Session(w, EmptyStore, 0, cs)
    requires SeenAfter(0, cs) <= height < |w.chain| && batchSize >= 1 && batchSize' >= 1
    ensures StripAll(Complete(After(w, EmptyStore, 0, cs).db, w.chain, w.fromEvents, height, batchSize).events)
            == StripAll(Complete(EmptyStore.db, w.chain, w.fromEvents, height, batchSize').events)
  {
    EmptyStoreInv(w);
    SessionKeeps(w, EmptyStore, 0, {}, cs);
    CompleteIsReference(After(w, EmptyStore, 0, cs).db, w.chain, w.fromEvents, SeenAfter(0, cs), height, batchSize);
    CompleteIsReference(EmptyStore.db, w.chain, w.fromEvents, 0, height, batchSize');
  }

  // After any session, every block below the index checkpoint is exact, and every
  // transaction of the checkpoint block has a row.
  lemma IndexedUpToCheckpoint(w: World, cs: seq<Command>)
    requires ValidWorld(w) && Session(w, EmptyStore, 0, cs)
    ensures SeenAfter(0, cs) < |w.chain|
    ensures Inv(After(w, EmptyStore, 0, cs).db, w.chain, w.fromEvents, SeenAfter(0, cs))
  {
    EmptyStoreInv(w);
    SessionKeeps(w, EmptyStore, 0, {}, cs);
  }

  // The checkpoint block itself is exact after every session exactly when no transaction
  // emits two different events.
  lemma CheckpointExactIff(w: World)
    requires ValidWorld(w)
    ensures OneEventPerTx(w.chain, w.fromEvents)
            <==> forall cs :: Session(w, EmptyStore, 0, cs) ==>
                                ExactAtCheckpoint(After(w, EmptyStore, 0, cs).db, w.chain, w.fromEvents)
  {
    if OneEventPerTx(w.chain, w.fromEvents) {
      forall cs | Session(w, EmptyStore, 0, cs)
        ensures ExactAtCheckpoint(After(w, EmptyStore, 0, cs).db, w.chain, w.fromEvents)
      {
        IndexedUpToCheckpoint(w, cs);
        OneEventIsExact(After(w, EmptyStore, 0, cs).db, w.chain, w.fromEvents, SeenAfter(0, cs));
      }
    } else {
      var cs := CaughtSession(w);
    }
  }

  lemma CaughtSession(w: World) returns (cs: seq<Command>)
    requires ValidWorld(w) && !OneEventPerTx(w.chain, w.fromEvents)
    ensures Session(w, EmptyStore, 0, cs)
    ensures !ExactAtCheckpoint(After(w, EmptyStore, 0, cs).db, w.chain, w.fromEvents)
  {
    assert w.fromEvents <= |w.chain|;
    hide OneBlockPerTx, OneEventPerTx, EntriesOf, LastOf, RunWrites, ApplyAll, ExactAtCheckpoint;
    var b, i := NotTheLast(w.chain, w.fromEvents);
    TwoEventsAreCaught(w.chain, w.fromEvents, b, i);
    var n := |WritesFrom(EmptyStore.db, w.chain, w.fromEvents, b, 1)|;
    var first, second := IndexCmd(b, 1, n), IndexCmd(b, 1, i + 1);
    FullRun(EmptyStore.db, w.chain, w.fromEvents, b, 1);
    cs := [first, second];
    var once := Step(w, EmptyStore, 0, first);
    assert cs[1..] == [second] && [second][1..] == [];
    TwoCommands(w, first, second);
  }

  lemma TwoCommands(w: World, first: Command, second: Command)
    requires Enabled(w, EmptyStore, 0, first)
    requires Enabled(w, Step(w, EmptyStore, 0, first), Seen(0, first), second)
    ensures Session(w, EmptyStore, 0, [first, second])
    ensures After(w, EmptyStore, 0, [first, second])
            == Step(w, Step(w, EmptyStore, 0, first), Seen(0, first), second)
  {
    hide Enabled, Step;
    var once := Step(w, EmptyStore, 0, first);
    var twice := Step(w, once, Seen(0, first), second);
    assert [first, second][1..] == [second] && [second][1..] == [];
    assert Session(w, twice, Seen(Seen(0, first), second), []);
    assert Session(w, once, Seen(0, first), [second]);
    assert After(w, once, Seen(0, first), [second]) == twice;
  }

  lemma FullRun(db: Db, chain: Chain, fromBlock: nat, height: nat, batchSize: nat)
    requires height < |chain| && batchSize >= 1
    ensures var n := |WritesFrom(db, chain, fromBlock, height, batchSize)|;
            Interrupted(db, chain, fromBlock, height, batchSize, n) == Complete(db, chain, fromBlock, height, batchSize)
  {
    var ws := WritesFrom(db, chain, fromBlock, height, batchSize);
    assert ws[..|ws|] == ws;
  }

  // -------- a complete pass --------

  // After any session and a complete revocation: the rows are those of before, labels aside,
  // a label is a collected key that explains its row, and a row without a label is explained
  // by no collected key.
  lemma RevokedIsExact(w: World, cs: seq<Command>, order: seq<Key>, t: Hash)
    requires ValidWorld(w) && Session(w, EmptyStore, 0, cs)
    requires IsOrder(order, After(w, EmptyStore, 0, cs).keyDb.keys)
    ensures var s := After(w, EmptyStore, 0, cs);
            var table := Revoked(s.db.events, order, w.hash, s.db.events.Keys);
            && (t in table <==> t in s.db.events)
            && (t in table ==>
                  && Strip(table[t]) == Strip(s.db.events[t])
                  && match table[t].viewingKey
                     case Some(k) => k in s.keyDb.keys && table[t].macCommitment == w.hash(table[t].macSalt, k)
                     case None =>
                       forall k :: k in s.keyDb.keys ==> table[t].macCommitment != w.hash(table[t].macSalt, k))
  {
    LabelsAlwaysTrue(w, cs);
    hide Session, After, ValidWorld, FirstMatch;
    var events := After(w, EmptyStore, 0, cs).db.events;
    if t in events {
      FirstMatchExact(events[t], order, w.hash);
    }
  }

  // A complete index run and a complete collection.
  ghost function Caught(w: World, s: Store, height: nat, batchSize: nat, missing: set<nat>): Store
    requires height < |w.chain| == |w.txs| && batchSize >= 1
  {
    Store(Complete(s.db, w.chain, w.fromEvents, height, batchSize),
          Collected(s.keyDb, w.txs, w.fromKeys, height, w.decrypt, missing,
                    |CollectWrites(s.keyDb, w.txs, w.fromKeys, height, w.decrypt, missing)|))
  }

  // Followed by a complete revocation.
  ghost function Pass(w: World, s: Store, height: nat, batchSize: nat, missing: set<nat>, order: seq<Key>): map<Hash, Row>
    requires height < |w.chain| == |w.txs| && batchSize >= 1
  {
    var events := Caught(w, s, height, batchSize, missing).db.events;
    Revoked(events, order, w.hash, events.Keys)
  }

  lemma CaughtKeeps(w: World, s: Store, seen: nat, lost: set<nat>, height: nat, batchSize: nat, missing: set<nat>)
    requires ValidWorld(w) && seen <= height < |w.chain| && batchSize >= 1 && StoreInv(w, s, seen, lost)
    ensures LabelsTrue(w, Caught(w, s, height, batchSize, missing))
    ensures StripAll(Caught(w, s, height, batchSize, missing).db.events) == Reference(w.chain, w.fromEvents, height)
    ensures forall k :: k in Caught(w, s, height, batchSize, missing).keyDb.keys ==>
                          Published(w.txs, w.fromKeys, height + 1, w.decrypt, k)
    ensures forall k :: PublishedOutside(w.txs, w.fromKeys, height + 1, w.decrypt, lost + missing, k) ==>
                          k in Caught(w, s, height, batchSize, missing).keyDb.keys
  {
    hide Inv, KeyInv, OneBlockPerTx, Complete, Collected, Interrupted, WritesFrom, CollectWrites, Reference, Published,
         PublishedOutside;
    CompleteIsReference(s.db, w.chain, w.fromEvents, seen, height, batchSize);
    CompleteScanIsPublished(s.keyDb, w.txs, w.fromKeys, seen, height, w.decrypt, missing, lost);
    var index := IndexCmd(height, batchSize, |WritesFrom(s.db, w.chain, w.fromEvents, height, batchSize)|);
    FullRun(s.db, w.chain, w.fromEvents, height, batchSize);
    StepKeeps(w, s, seen, lost, index);
    assert lost + {} == lost;
    var s1 := Step(w, s, seen, index);
    var collect := CollectCmd(height, missing, |CollectWrites(s.keyDb, w.txs, w.fromKeys, height, w.decrypt, missing)|);
    StepKeeps(w, s1, height, lost, collect);
  }

  // After any session and a complete pass, the table is the one of a single run, a label is
  // a published key that explains its row, and a row without a label is explained by no key
  // that is published in a block which every collection got.
  lemma PassIsExact(w: World, cs: seq<Command>, height: nat, batchSize: nat, missing: set<nat>, order: seq<Key>, t: Hash)
    requires ValidWorld(w) && Session(w, EmptyStore, 0, cs)
    requires SeenAfter(0, cs) <= height < |w.chain| && batchSize >= 1
    requires IsOrder(order, Caught(w, After(w, EmptyStore, 0, cs), height, batchSize, missing).keyDb.keys)
    ensures var table := Pass(w, After(w, EmptyStore, 0, cs), height, batchSize, missing, order);
            var reference := Reference(w.chain, w.fromEvents, height);
            && (t in table <==> t in reference)
            && (t in table ==>
                  && Strip(table[t]) == reference[t]
                  && match table[t].viewingKey
                     case Some(k) =>
                       && Published(w.txs, w.fromKeys, height + 1, w.decrypt, k)
                       && reference[t].macCommitment == w.hash(reference[t].macSalt, k)
                     case None =>
                       forall k :: PublishedOutside(w.txs, w.fromKeys, height + 1, w.decrypt, Lost(cs) + missing, k) ==>
                                     reference[t].macCommitment != w.hash(reference[t].macSalt, k))
  {
    EmptyStoreInv(w);
    SessionKeeps(w, EmptyStore, 0, {}, cs);
    assert {} + Lost(cs) == Lost(cs);
    hide Reference, Caught, FirstMatch, Published, PublishedOutside, StoreInv, Session, After, OneBlockPerTx, Lost;
    var s := After(w, EmptyStore, 0, cs);
    CaughtKeeps(w, s, SeenAfter(0, cs), Lost(cs), height, batchSize, missing);
    var events := Caught(w, s, height, batchSize, missing).db.events;
    assert t in events <==> t in StripAll(events);
    if t in events {
      assert StripAll(events)[t] == Strip(events[t]);
      FirstMatchExact(events[t], order, w.hash);
      if FirstMatch(events[t], order, w.hash).Some? {
        assert FirstMatch(events[t], order, w.hash).value in order;
      }
    }
  }

  // Where a commitment determines its key and the provider returned every block, the table does
  // not depend on what happened before the pass, on the batch size or on the order of the keys.
  lemma PassIsCanonical(w: World, cs: seq<Command>, cs': seq<Command>, height: nat, batchSize: nat, batchSize': nat,
                        order: seq<Key>, order': seq<Key>)
    requires ValidWorld(w) && Session(w, EmptyStore, 0, cs) && Session(w, EmptyStore, 0, cs')
    requires SeenAfter(0, cs) <= height < |w.chain| && SeenAfter(0, cs') <= height
    requires batchSize >= 1 && batchSize' >= 1 && Lost(cs) == {} && Lost(cs') == {}
    requires IsOrder(order, Caught(w, After(w, EmptyStore, 0, cs), height, batchSize, {}).keyDb.keys)
    requires IsOrder(order', Caught(w, After(w, EmptyStore, 0, cs'), height, batchSize', {}).keyDb.keys)
    requires forall salt, k, k' :: w.hash(salt, k) == w.hash(salt, k') ==> k == k'
    ensures Pass(w, After(w, EmptyStore, 0, cs), height, batchSize, {}, order)
            == Pass(w, After(w, EmptyStore, 0, cs'), height, batchSize', {}, order')
  {
    var one := Pass(w, After(w, EmptyStore, 0, cs), height, batchSize, {}, order);
    var two := Pass(w, After(w, EmptyStore, 0, cs'), height, batchSize', {}, order');
    assert Lost(cs) + {} == {} && Lost(cs') + {} == {};
    NothingMissing(w, height + 1);
    hide Pass, Reference, Caught, Published, PublishedOutside, Session, After, OneBlockPerTx;
    forall t
      ensures t in one <==> t in two
      ensures t in one ==> one[t] == two[t]
    {
      PassIsExact(w, cs, height, batchSize, {}, order, t);
      PassIsExact(w, cs', height, batchSize', {}, order', t);
      if t in one {
        SameRow(one[t], two[t]);
      }
    }
  }

  lemma NothingMissing(w: World, end: nat)
    requires end <= |w.txs|
    ensures forall k :: Published(w.txs, w.fromKeys, end, w.decrypt, k) ==>
                          PublishedOutside(w.txs, w.fromKeys, end, w.decrypt, {}, k)
  {
    hide KeysOfBlock;
  }

  lemma SameRow(a: Row, b: Row)
    ensures Strip(a) == Strip(b) && a.viewingKey == b.viewingKey ==> a == b
  {
  }

  // Labels are not monotone: a complete index run keeps the rows of the blocks below the
  // checkpoint and removes every label from the checkpoint block on.
  lemma LabelSurvivesIff(db: Db, chain: Chain, fromBlock: nat, seen: nat, height: nat, batchSize: nat, t: Hash)
    requires OneBlockPerTx(chain) && seen <= height < |chain| && batchSize >= 1 && Inv(db, chain, fromBlock, seen)
    requires t in db.events
    ensures var after := Complete(db, chain, fromBlock, height, batchSize).events;
            && t in after
            && if db.events[t].block < LastSeen(db.checkpoint) then after[t] == db.events[t]
               else after[t].viewingKey.None?
  {
    hide EntriesOf, LastOf, Upserted, RunWrites, ApplyAll, OneBlockPerTx;
    var start := Max(fromBlock, LastSeen(db.checkpoint));
    StartAt(db, chain, fromBlock, seen);
    CompleteShape(db, chain, start, height, batchSize);
    var es := EntriesOf(chain, start, height + 1);
    UpsertedAt(db.events, es, t);
    assert FromChain(db.events[t], chain, fromBlock, seen, t);
    var e :| e in EntriesOf(chain, fromBlock, seen + 1) && e.txHash == t && Strip(db.events[t]) == ToRow(e);
    NoneAbove(chain, fromBlock, seen, e);
    EntryRange(chain, fromBlock, seen + 1, e);
    EntryWider(chain, fromBlock, seen + 1, e, fromBlock, height + 1);
    EntriesSplit(chain, fromBlock, start, height + 1);
    if e.block < start {
      if e in es {
        EntryRange(chain, start, height + 1, e);
      }
      EntryHasLast(EntriesOf(chain, fromBlock, start), e);
      NotElsewhere(chain, fromBlock, start, start, height + 1, t);
    } else {
      if e in EntriesOf(chain, fromBlock, start) {
        EntryRange(chain, fromBlock, start, e);
      }
      EntryHasLast(es, e);
      LastHasNoKey(es, t);
    }
  }
}
