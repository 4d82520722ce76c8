/**
  Collecting viewing keys: a scan of the chain, block by block, decrypts the key of every
  account creation into a table of keys and keeps its own checkpoint.
 */
module ViewingKeys {
  import opened Common
  import opened Indexer

  // The two calls that create an account carry an encrypted viewing key.
  datatype Call = NewAccountNative(cipher: nat) | NewAccountERC20(cipher: nat) | OtherCall

  datatype Tx = Tx(toShielder: bool, call: Call)

  type Txs = seq<seq<Tx>>

  function KeysOfTx(tx: Tx, decrypt: nat -> Key): seq<Key> {
    if tx.toShielder && !tx.call.OtherCall? then [decrypt(tx.call.cipher)] else []
  }

  function KeysOfBlock(block: seq<Tx>, decrypt: nat -> Key): seq<Key> {
    if block == [] then [] else KeysOfBlock(block[..|block| - 1], decrypt) + KeysOfTx(block[|block| - 1], decrypt)
  }

  // A block publishes the key of every account creation that it sends to the contract.
  lemma {:induction false} KeysOfBlockExact(block: seq<Tx>, decrypt: nat -> Key, k: Key)
    ensures k in KeysOfBlock(block, decrypt) <==>
            exists i :: 0 <= i < |block| && block[i].toShielder && !block[i].call.OtherCall?
                        && decrypt(block[i].call.cipher) == k
  {
    if block != [] {
      var n := |block| - 1;
      KeysOfBlockExact(block[..n], decrypt, k);
      assert k in KeysOfTx(block[n], decrypt) <==>
             block[n].toShielder && !block[n].call.OtherCall? && decrypt(block[n].call.cipher) == k;
      if i :| 0 <= i < |block| && block[i].toShielder && !block[i].call.OtherCall? && decrypt(block[i].call.cipher) == k {
        assert i < n ==> block[..n][i] == block[i];
      }
    }
  }

  // The key is published in one of the blocks lo .. hi - 1.
  ghost predicate Published(txs: Txs, lo: nat, hi: nat, decrypt: nat -> Key, k: Key)
    requires hi <= |txs|
  {
    exists b :: lo <= b < hi && k in KeysOfBlock(txs[b], decrypt)
  }

  // The keys that a scan gets from a block. The provider may fail to return a block, and the
  // scan then goes on without it.
  function KeysGot(txs: Txs, b: nat, decrypt: nat -> Key, missing: set<nat>): seq<Key>
    requires b < |txs|
  {
    if b in missing then [] else KeysOfBlock(txs[b], decrypt)
  }

  // The key is published in one of the blocks lo .. hi - 1 that are not missing.
  ghost predicate PublishedOutside(txs: Txs, lo: nat, hi: nat, decrypt: nat -> Key, missing: set<nat>, k: Key)
    requires hi <= |txs|
  {
    exists b :: lo <= b < hi && b !in missing && k in KeysOfBlock(txs[b], decrypt)
  }

  datatype KeyWrite = UpsertKey(key: Key) | SetCheckpoint(block: nat)

  datatype KeyDb = KeyDb(keys: set<Key>, checkpoint: Option<nat>)

  function Elements(keys: seq<Key>): set<Key> {
    set k | k in keys
  }

  function ApplyKey(db: KeyDb, w: KeyWrite): KeyDb {
    match w
    case UpsertKey(k) => db.(keys := db.keys + {k})
    case SetCheckpoint(b) => db.(checkpoint := Some(b))
  }

  function ApplyKeys(db: KeyDb, ws: seq<KeyWrite>): KeyDb {
    if ws == [] then db else ApplyKey(ApplyKeys(db, ws[..|ws| - 1]), ws[|ws| - 1])
  }

  function UpsertKeys(keys: seq<Key>): (ws: seq<KeyWrite>)
    ensures |ws| == |keys|
  {
    seq(|keys|, i requires 0 <= i < |keys| => UpsertKey(keys[i]))
  }

  function BlockWrites(txs: Txs, b: nat, decrypt: nat -> Key, missing: set<nat>): seq<KeyWrite>
    requires b < |txs|
  {
    UpsertKeys(KeysGot(txs, b, decrypt, missing)) + [SetCheckpoint(b)]
  }

  // The writes of a complete scan of the blocks start .. end - 1.
  function ScanWrites(txs: Txs, start: nat, end: nat, decrypt: nat -> Key, missing: set<nat>): seq<KeyWrite>
    requires end <= |txs|
  {
    if start >= end then [] else ScanWrites(txs, start, end - 1, decrypt, missing) + BlockWrites(txs, end - 1, decrypt, missing)
  }

  function CollectWrites(db: KeyDb, txs: Txs, fromBlock: nat, height: nat, decrypt: nat -> Key, missing: set<nat>): seq<KeyWrite>
    requires height < |txs|
  {
    ScanWrites(txs, Max(fromBlock, LastSeen(db.checkpoint)), height + 1, decrypt, missing)
  }

  // The scan stopped after its first k writes.
  function Collected(db: KeyDb, txs: Txs, fromBlock: nat, height: nat, decrypt: nat -> Key, missing: set<nat>, k: nat): KeyDb
    requires height < |txs|
    requires k <= |CollectWrites(db, txs, fromBlock, height, decrypt, missing)|
  {
    ApplyKeys(db, CollectWrites(db, txs, fromBlock, height, decrypt, missing)[..k])
  }

  lemma {:induction false} ApplyKeysConcat(db: KeyDb, a: seq<KeyWrite>, b: seq<KeyWrite>)
    ensures ApplyKeys(db, a + b) == ApplyKeys(ApplyKeys(db, a), b)
    decreases b
  {
    if b == [] {
      assert a + b == a;
    } else {
      var n := |b| - 1;
      assert (a + b)[..|a| + n] == a + b[..n];
      ApplyKeysConcat(db, a, b[..n]);
    }
  }

  lemma {:induction false} ApplyUpsertKeys(db: KeyDb, keys: seq<Key>)
    ensures ApplyKeys(db, UpsertKeys(keys)) == db.(keys := db.keys + Elements(keys))
  {
    if keys != [] {
      var n := |keys| - 1;
      assert UpsertKeys(keys)[..n] == UpsertKeys(keys[..n]);
      ApplyUpsertKeys(db, keys[..n]);
      assert keys == keys[..n] + [keys[n]];
    }
  }

  class KeyTable {
    var keys: set<Key>
    var checkpoint: Option<nat>

    constructor ()
      ensures View() == KeyDb({}, None)
    {
      keys, checkpoint := {}, None;
    }

    ghost function View(): KeyDb
      reads this
    {
      KeyDb(keys, checkpoint)
    }

    method UpsertViewingKey(key: Key)
      modifies this
      ensures View() == ApplyKey(old(View()), UpsertKey(key))
    {
      keys := keys + {key};
    }

    // The scan: `collect` of the command line.
    method Collect(txs: Txs, fromBlock: nat, height: nat, decrypt: nat -> Key, missing: set<nat>)
      requires height < |txs|
      modifies this
      ensures View() == ApplyKeys(old(View()), CollectWrites(old(View()), txs, fromBlock, height, decrypt, missing))
    {
      var start := Max(fromBlock, LastSeen(checkpoint));
      ghost var before := View();
      hide ApplyKeys, ScanWrites, KeysOfBlock;
      ScanStarts(before, txs, start, decrypt, missing);
      if start <= height {
        for b := start to height + 1
          invariant View() == ApplyKeys(before, ScanWrites(txs, start, b, decrypt, missing))
        {
          ghost var mid := View();
          if b !in missing {
            CollectBlock(txs[b], decrypt);
          }
          checkpoint := Some(b);
          ScanContinues(before, mid, txs, start, b, decrypt, missing);
        }
      } else {
        ScanEmpty(before, txs, start, height, decrypt, missing);
      }
    }

    method CollectBlock(block: seq<Tx>, decrypt: nat -> Key)
      modifies this
      ensures View() == old(View()).(keys := old(View()).keys + Elements(KeysOfBlock(block, decrypt)))
    {
      assert block[..0] == [];
      for i := 0 to |block|
        invariant View() == old(View()).(keys := old(View()).keys + Elements(KeysOfBlock(block[..i], decrypt)))
      {
        var tx := block[i];
        if tx.toShielder {
          if tx.call.NewAccountNative? {
            UpsertViewingKey(decrypt(tx.call.cipher));
          }
          if tx.call.NewAccountERC20? {
            UpsertViewingKey(decrypt(tx.call.cipher));
          }
        }
        assert block[..i + 1][..i] == block[..i];
      }
      assert block[..|block|] == block;
    }

    // The keys in some order.
    method QueryViewingKeys() returns (list: seq<Key>)
      ensures forall k :: k in list <==> k in keys
    {
      list := [];
      var rest := keys;
      while rest != {}
        invariant forall k :: k in keys <==> k in list || k in rest
        decreases rest
      {
        var k :| k in rest;
        list, rest := list + [k], rest - {k};
      }
    }
  }

  lemma ScanStarts(db: KeyDb, txs: Txs, start: nat, decrypt: nat -> Key, missing: set<nat>)
    ensures start <= |txs| ==> ApplyKeys(db, ScanWrites(txs, start, start, decrypt, missing)) == db
  {
  }

  lemma ScanEmpty(db: KeyDb, txs: Txs, start: nat, height: nat, decrypt: nat -> Key, missing: set<nat>)
    requires height < |txs| && start > height
    ensures ApplyKeys(db, ScanWrites(txs, start, height + 1, decrypt, missing)) == db
  {
  }

  lemma ScanContinues(db: KeyDb, mid: KeyDb, txs: Txs, start: nat, b: nat, decrypt: nat -> Key, missing: set<nat>)
    requires start <= b < |txs| && mid == ApplyKeys(db, ScanWrites(txs, start, b, decrypt, missing))
    ensures ApplyKeys(db, ScanWrites(txs, start, b + 1, decrypt, missing))
            == KeyDb(mid.keys + Elements(KeysGot(txs, b, decrypt, missing)), Some(b))
  {
    var block := BlockWrites(txs, b, decrypt, missing);
    var upserts := UpsertKeys(KeysGot(txs, b, decrypt, missing));
    assert block[..|block| - 1] == upserts;
    ApplyKeysConcat(db, ScanWrites(txs, start, b, decrypt, missing), block);
    ApplyUpsertKeys(mid, KeysGot(txs, b, decrypt, missing));
  }

  // -------- what holds after any scans --------

  // Every key published up to the checkpoint is in the table, unless its block was missing in
  // some scan, and nothing but published keys.
  ghost predicate KeyInv(db: KeyDb, txs: Txs, fromBlock: nat, seen: nat, decrypt: nat -> Key, lost: set<nat>)
    requires seen < |txs|
  {
    && (db.checkpoint.Some? ==> fromBlock <= db.checkpoint.value <= seen)
    && HasBelow(db, txs, fromBlock, if db.checkpoint.Some? then db.checkpoint.value + 1 else fromBlock, decrypt, lost)
    && OnlyBelow(db, txs, fromBlock, seen + 1, decrypt)
  }

  ghost predicate HasBelow(db: KeyDb, txs: Txs, lo: nat, hi: nat, decrypt: nat -> Key, lost: set<nat>) {
    forall b, k :: lo <= b < hi && b < |txs| && b !in lost && k in KeysOfBlock(txs[b], decrypt) ==> k in db.keys
  }

  ghost predicate OnlyBelow(db: KeyDb, txs: Txs, lo: nat, hi: nat, decrypt: nat -> Key)
    requires hi <= |txs|
  {
    forall k :: k in db.keys ==> Published(txs, lo, hi, decrypt, k)
  }

  // Each write of a scan keeps the invariant.
  lemma {:induction false} ScanKeeps(db: KeyDb, txs: Txs, fromBlock: nat, seen: nat, height: nat, start: nat, end: nat,
                                     decrypt: nat -> Key, missing: set<nat>, lost: set<nat>, k: nat)
    requires seen <= height < |txs| && end <= height + 1 && KeyInv(db, txs, fromBlock, seen, decrypt, lost)
    requires start == Max(fromBlock, LastSeen(db.checkpoint)) && missing <= lost
    requires k <= |ScanWrites(txs, start, end, decrypt, missing)|
    ensures var db' := ApplyKeys(db, ScanWrites(txs, start, end, decrypt, missing)[..k]);
            && KeyInv(db', txs, fromBlock, height, decrypt, lost)
            && db.keys <= db'.keys
            && (k == |ScanWrites(txs, start, end, decrypt, missing)| && start < end ==> db'.checkpoint == Some(end - 1))
    decreases end
  {
    hide ApplyKeys, KeysOfBlock, HasBelow, OnlyBelow;
    var writes := ScanWrites(txs, start, end, decrypt, missing);
    if start >= end {
      ApplyNoKeys(db);
      assert writes[..k] == [];
      OnlyWider(db, txs, fromBlock, seen, height, decrypt);
    } else {
      var init := ScanWrites(txs, start, end - 1, decrypt, missing);
      hide ScanWrites;
      if k <= |init| {
        assert writes[..k] == init[..k];
        ScanKeeps(db, txs, fromBlock, seen, height, start, end - 1, decrypt, missing, lost, k);
      } else {
        assert init[..|init|] == init;
        ScanKeeps(db, txs, fromBlock, seen, height, start, end - 1, decrypt, missing, lost, |init|);
        var mid := ApplyKeys(db, init);
        if start == end - 1 {
          ScanStarts(db, txs, start, decrypt, missing);
        }
        BlockKeeps(db, mid, init, txs, fromBlock, height, end - 1, decrypt, missing, lost, k - |init|);
        assert writes[..k] == init + BlockWrites(txs, end - 1, decrypt, missing)[..k - |init|];
      }
    }
  }

  lemma ApplyNoKeys(db: KeyDb)
    ensures ApplyKeys(db, []) == db
  {
  }

  lemma OnlyWider(db: KeyDb, txs: Txs, fromBlock: nat, seen: nat, height: nat, decrypt: nat -> Key)
    requires seen <= height < |txs| && OnlyBelow(db, txs, fromBlock, seen + 1, decrypt)
    ensures OnlyBelow(db, txs, fromBlock, height + 1, decrypt)
  {
  }

  lemma BlockKeeps(db: KeyDb, mid: KeyDb, init: seq<KeyWrite>, txs: Txs, fromBlock: nat, height: nat, b: nat,
                   decrypt: nat -> Key, missing: set<nat>, lost: set<nat>, j: nat)
    requires fromBlock <= b <= height < |txs| && mid == ApplyKeys(db, init) && missing <= lost
    requires KeyInv(mid, txs, fromBlock, height, decrypt, lost) && db.keys <= mid.keys
    requires if mid.checkpoint.Some? then b - 1 <= mid.checkpoint.value <= b else b == fromBlock
    requires j <= |BlockWrites(txs, b, decrypt, missing)|
    ensures var db' := ApplyKeys(db, init + BlockWrites(txs, b, decrypt, missing)[..j]);
            && KeyInv(db', txs, fromBlock, height, decrypt, lost)
            && db.keys <= db'.keys
            && (j == |BlockWrites(txs, b, decrypt, missing)| ==> db'.checkpoint == Some(b))
  {
    hide ApplyKeys, KeysOfBlock;
    var block, keys := BlockWrites(txs, b, decrypt, missing), KeysGot(txs, b, decrypt, missing);
    ApplyKeysConcat(db, init, block[..j]);
    if j <= |keys| {
      assert block[..j] == UpsertKeys(keys[..j]);
      ApplyUpsertKeys(mid, keys[..j]);
    } else {
      assert block[..j] == UpsertKeys(keys) + [SetCheckpoint(b)];
      ApplyKeysConcat(mid, UpsertKeys(keys), [SetCheckpoint(b)]);
      ApplyUpsertKeys(mid, keys);
      ApplyOneKey(mid.(keys := mid.keys + Elements(keys)), SetCheckpoint(b));
    }
  }

  lemma ApplyOneKey(db: KeyDb, w: KeyWrite)
    ensures ApplyKeys(db, [w]) == ApplyKey(db, w)
  {
    assert [w][..0] == [];
    ApplyNoKeys(db);
  }

  lemma KeyInvWeaker(db: KeyDb, txs: Txs, fromBlock: nat, seen: nat, decrypt: nat -> Key, lost: set<nat>, lost': set<nat>)
    requires seen < |txs| && KeyInv(db, txs, fromBlock, seen, decrypt, lost) && lost <= lost'
    ensures KeyInv(db, txs, fromBlock, seen, decrypt, lost')
  {
  }

  // A scan stopped after any number of writes; the blocks that it did not get may be lost.
  lemma CollectedKeeps(db: KeyDb, txs: Txs, fromBlock: nat, seen: nat, height: nat, decrypt: nat -> Key,
                       missing: set<nat>, lost: set<nat>, k: nat)
    requires seen <= height < |txs| && KeyInv(db, txs, fromBlock, seen, decrypt, lost)
    requires k <= |CollectWrites(db, txs, fromBlock, height, decrypt, missing)|
    ensures KeyInv(Collected(db, txs, fromBlock, height, decrypt, missing, k), txs, fromBlock, height, decrypt, lost + missing)
    ensures db.keys <= Collected(db, txs, fromBlock, height, decrypt, missing, k).keys
  {
    KeyInvWeaker(db, txs, fromBlock, seen, decrypt, lost, lost + missing);
    ScanKeeps(db, txs, fromBlock, seen, height, Max(fromBlock, LastSeen(db.checkpoint)), height + 1, decrypt,
              missing, lost + missing, k);
  }

  // A complete scan adds exactly the keys of the blocks from the checkpoint on that it got,
  // whatever the table holds. Blocks below the checkpoint are never asked for again, so keys
  // of a block that was missing are lost unless another block publishes them.
  lemma {:induction false} ScanAdds(db: KeyDb, txs: Txs, start: nat, end: nat, decrypt: nat -> Key, missing: set<nat>, k: Key)
    requires end <= |txs|
    ensures k in ApplyKeys(db, ScanWrites(txs, start, end, decrypt, missing)).keys <==>
            k in db.keys || PublishedOutside(txs, start, end, decrypt, missing, k)
    decreases end
  {
    hide ApplyKeys, KeysOfBlock;
    if start < end {
      ScanAdds(db, txs, start, end - 1, decrypt, missing, k);
      ScanContinues(db, ApplyKeys(db, ScanWrites(txs, start, end - 1, decrypt, missing)), txs, start, end - 1, decrypt, missing);
    } else {
      ApplyNoKeys(db);
    }
  }

  // So a complete collection adds the keys of the blocks from the checkpoint, itself included,
  // or without one from the first block on.
  lemma CollectAdds(db: KeyDb, txs: Txs, fromBlock: nat, height: nat, decrypt: nat -> Key, missing: set<nat>, k: Key)
    requires height < |txs|
    ensures var start := if db.checkpoint.Some? && db.checkpoint.value > fromBlock then db.checkpoint.value else fromBlock;
            k in ApplyKeys(db, CollectWrites(db, txs, fromBlock, height, decrypt, missing)).keys <==>
            k in db.keys || PublishedOutside(txs, start, height + 1, decrypt, missing, k)
  {
    hide ApplyKeys, ScanWrites, PublishedOutside;
    ScanAdds(db, txs, Max(fromBlock, LastSeen(db.checkpoint)), height + 1, decrypt, missing, k);
  }

  // Every key of a missing block is also published in a block that is not missing.
  ghost predicate AlsoElsewhere(txs: Txs, lo: nat, hi: nat, decrypt: nat -> Key, missing: set<nat>)
    requires hi <= |txs|
  {
    forall b, k :: lo <= b < hi && b in missing && k in KeysOfBlock(txs[b], decrypt) ==>
      PublishedOutside(txs, lo, hi, decrypt, missing, k)
  }

  ghost predicate AllPublishedIn(txs: Txs, lo: nat, hi: nat, decrypt: nat -> Key, keys: set<Key>)
    requires hi <= |txs|
  {
    forall k :: Published(txs, lo, hi, decrypt, k) ==> k in keys
  }

  lemma AllOutsideIff(txs: Txs, lo: nat, hi: nat, decrypt: nat -> Key, missing: set<nat>)
    requires hi <= |txs|
    ensures AlsoElsewhere(txs, lo, hi, decrypt, missing) <==>
            forall k :: Published(txs, lo, hi, decrypt, k) ==> PublishedOutside(txs, lo, hi, decrypt, missing, k)
  {
    hide KeysOfBlock;
    if AlsoElsewhere(txs, lo, hi, decrypt, missing) {
      forall k | Published(txs, lo, hi, decrypt, k)
        ensures PublishedOutside(txs, lo, hi, decrypt, missing, k)
      {
        var b :| lo <= b < hi && k in KeysOfBlock(txs[b], decrypt);
        assert b !in missing ==> PublishedOutside(txs, lo, hi, decrypt, missing, k);
      }
    } else {
      var b, k :| lo <= b < hi && b in missing && k in KeysOfBlock(txs[b], decrypt)
                  && !PublishedOutside(txs, lo, hi, decrypt, missing, k);
      assert Published(txs, lo, hi, decrypt, k);
    }
  }

  // The first complete scan collects exactly the keys that are published in blocks that it
  // got, and these are all published keys if and only if every key of a missing block is also
  // published elsewhere.
  lemma FirstScanExactIff(txs: Txs, fromBlock: nat, height: nat, decrypt: nat -> Key, missing: set<nat>)
    requires height < |txs|
    ensures var db := KeyDb({}, None);
            var keys := ApplyKeys(db, CollectWrites(db, txs, fromBlock, height, decrypt, missing)).keys;
            && (forall k :: k in keys <==> PublishedOutside(txs, fromBlock, height + 1, decrypt, missing, k))
            && (AlsoElsewhere(txs, fromBlock, height + 1, decrypt, missing) <==>
                AllPublishedIn(txs, fromBlock, height + 1, decrypt, keys))
  {
    hide ApplyKeys, ScanWrites, Published, PublishedOutside, AlsoElsewhere;
    var db := KeyDb({}, None);
    AllOutsideIff(txs, fromBlock, height + 1, decrypt, missing);
    forall k
      ensures k in ApplyKeys(db, CollectWrites(db, txs, fromBlock, height, decrypt, missing)).keys
              <==> PublishedOutside(txs, fromBlock, height + 1, decrypt, missing, k)
    {
      ScanAdds(db, txs, fromBlock, height + 1, decrypt, missing, k);
    }
    var keys := ApplyKeys(db, CollectWrites(db, txs, fromBlock, height, decrypt, missing)).keys;
    if !AlsoElsewhere(txs, fromBlock, height + 1, decrypt, missing) {
      var k :| Published(txs, fromBlock, height + 1, decrypt, k)
               && !PublishedOutside(txs, fromBlock, height + 1, decrypt, missing, k);
      assert k !in keys;
    } else {
      forall k | Published(txs, fromBlock, height + 1, decrypt, k)
        ensures k in keys
      {
        assert PublishedOutside(txs, fromBlock, height + 1, decrypt, missing, k);
      }
    }
  }

  // A complete scan, whatever happened before: only published keys, and every one that is
  // published in a block that no scan missed; hence all of them if none was missing.
  lemma CompleteScanIsPublished(db: KeyDb, txs: Txs, fromBlock: nat, seen: nat, height: nat, decrypt: nat -> Key,
                                missing: set<nat>, lost: set<nat>)
    requires seen <= height < |txs| && KeyInv(db, txs, fromBlock, seen, decrypt, lost)
    ensures var writes := CollectWrites(db, txs, fromBlock, height, decrypt, missing);
            var keys := Collected(db, txs, fromBlock, height, decrypt, missing, |writes|).keys;
            && (forall k :: k in keys ==> Published(txs, fromBlock, height + 1, decrypt, k))
            && (forall k :: PublishedOutside(txs, fromBlock, height + 1, decrypt, lost + missing, k) ==> k in keys)
  {
    var n := |CollectWrites(db, txs, fromBlock, height, decrypt, missing)|;
    KeyInvWeaker(db, txs, fromBlock, seen, decrypt, lost, lost + missing);
    ScanKeeps(db, txs, fromBlock, seen, height, Max(fromBlock, LastSeen(db.checkpoint)), height + 1, decrypt,
              missing, lost + missing, n);
  }
}
