/**
  Recovery of an account from the chain: starting from any prefix of its history, follow the
  chain of nullifiers through the contract's nullifier map until one is unspent.
 */
module Recovery {
  import opened Words
  import opened Common
  import opened Account

  // -------- the chain --------

  datatype Kind = NewAccountKind | DepositKind | WithdrawKind

  datatype EventData = EventData(amount: nat, newNoteIndex: nat, token: Token, protocolFee: nat)

  datatype ContractEvent =
    | NewAccountLog(data: EventData)
    | DepositLog(data: EventData)
    | WithdrawLog(data: EventData, withdrawalAddress: nat)

  // Input that decodes as one of the contract's calls, with the nullifier it names. Whom the
  // transaction calls is not looked at.
  datatype Call = Call(kind: Kind, nullifier: nat)

  // A nullifier that the contract really spent, and the event it emitted.
  datatype Spending = Spending(nullifier: nat, event: ContractEvent)

  // The logs that decode as an event of the contract, whoever emitted them, and what the
  // contract did in the transaction.
  datatype Tx = Tx(hash: nat, call: Option<Call>, logs: seq<ContractEvent>, spent: seq<Spending>)

  // The blocks, and the contract's map from nullifiers to the number of the block in which
  // they were spent, plus one. Unspent nullifiers read as zero.
  datatype Chain = Chain(blocks: seq<seq<Tx>>, nullifiers: map<nat, nat>)

  const MAX_BLOCK_NUMBER: nat := 0xFFFF_FFFF_FFFF_FFFF

  datatype Error = EventNotFound | BlockNumberTooLarge | BlockNotFound

  datatype Fallible<+T> = Ok(value: T) | Err(error: Error)

  // -------- finding an action --------

  function KindOf(e: ContractEvent): Kind {
    match e
    case NewAccountLog(_) => NewAccountKind
    case DepositLog(_) => DepositKind
    case WithdrawLog(_, _) => WithdrawKind
  }

  function FirstEvent(logs: seq<ContractEvent>, kind: Kind): Option<ContractEvent> {
    if logs == [] then None else if KindOf(logs[0]) == kind then Some(logs[0]) else FirstEvent(logs[1..], kind)
  }

  function ToAction(tx: Tx, e: ContractEvent): Action {
    var data := TxData(e.data.amount, e.data.newNoteIndex, tx.hash, e.data.token, e.data.protocolFee);
    match e
    case NewAccountLog(_) => NewAccount(data)
    case DepositLog(_) => Deposit(data)
    case WithdrawLog(_, to) => Withdraw(to, data)
  }

  // None: not a call of the contract. An error: a call without its event.
  function CheckTx(tx: Tx): Fallible<Option<(ContractEvent, nat)>> {
    match tx.call
    case None => Ok(None)
    case Some(call) =>
      match FirstEvent(tx.logs, call.kind)
      case None => Err(EventNotFound)
      case Some(e) => Ok(Some((e, call.nullifier)))
  }

  function FindAction(txs: seq<Tx>, nullifier: nat): Fallible<Option<Action>> {
    if txs == [] then Ok(None) else
    match CheckTx(txs[0])
    case Err(e) => Err(e)
    case Ok(found) =>
      if found.Some? && found.value.1 == nullifier then Ok(Some(ToAction(txs[0], found.value.0)))
      else FindAction(txs[1..], nullifier)
  }

  function BlockOfSpending(chain: Chain, nullifier: nat): Fallible<Option<nat>> {
    var n := if nullifier in chain.nullifiers then chain.nullifiers[nullifier] else 0;
    if n == 0 then Ok(None)
    else if n - 1 >= MAX_BLOCK_NUMBER then Err(BlockNumberTooLarge)
    else Ok(Some(n - 1))
  }

  function ActionOf(chain: Chain, nullifier: nat): Fallible<Option<Action>> {
    match BlockOfSpending(chain, nullifier)
    case Err(e) => Err(e)
    case Ok(None) => Ok(None)
    case Ok(Some(b)) => if b < |chain.blocks| then FindAction(chain.blocks[b], nullifier) else Err(BlockNotFound)
  }

  method GetBlockOfNullifierSpending(chain: Chain, nullifier: nat) returns (r: Fallible<Option<nat>>)
    ensures r == BlockOfSpending(chain, nullifier)
  {
    var blockNumber := if nullifier in chain.nullifiers then chain.nullifiers[nullifier] else 0;
    if blockNumber == 0 {
      return Ok(None);
    }
    blockNumber := blockNumber - 1;
    if blockNumber >= MAX_BLOCK_NUMBER {
      return Err(BlockNumberTooLarge);
    }
    r := Ok(Some(blockNumber));
  }

  method GetShielderAction(chain: Chain, nullifier: nat) returns (r: Fallible<Option<Action>>)
    ensures r == ActionOf(chain, nullifier)
  {
    var block := GetBlockOfNullifierSpending(chain, nullifier);
    if block.Err? {
      return Err(block.error);
    }
    if block.value.None? {
      return Ok(None);
    }
    if block.value.value >= |chain.blocks| {
      return Err(BlockNotFound);
    }
    var txs := chain.blocks[block.value.value];
    for i := 0 to |txs|
      invariant FindAction(txs, nullifier) == FindAction(txs[i..], nullifier)
    {
      assert txs[i..][0] == txs[i] && txs[i..][1..] == txs[i + 1..];
      var found := CheckTx(txs[i]);
      if found.Err? {
        return Err(found.error);
      }
      if found.value.Some? && found.value.value.1 == nullifier {
        return Ok(Some(ToAction(txs[i], found.value.value.0)));
      }
    }
    r := Ok(None);
  }

  // -------- the recovery loop --------

  function Expected(s: State, crypto: Crypto): nat {
    crypto.hash(PreviousNullifier(s, crypto))
  }

  datatype Outcome = Recovered(state: State) | Failed(error: Error) | Panicked(reason: Reason)

  function Recover(s: State, chain: Chain, crypto: Crypto): Outcome
    decreases U32_SIZE - s.nonce
  {
    match ActionOf(chain, Expected(s, crypto))
    case Err(e) => Failed(e)
    case Ok(None) => Recovered(s)
    case Ok(Some(action)) =>
      match Register(s, action)
      case Panic(reason) => Panicked(reason)
      case Done(t) => Recover(t, chain, crypto)
  }

  // What follows on registering an action.
  function Continue(registered: Result<State>, chain: Chain, crypto: Crypto): Outcome {
    match registered
    case Panic(reason) => Panicked(reason)
    case Done(t) => Recover(t, chain, crypto)
  }

  // The loop ends on every chain: each turn takes a nonce.
  method RecoverState(account: ShielderAccount, chain: Chain, crypto: Crypto) returns (ok: bool)
    modifies account
    ensures ok == Recover(old(account.View()), chain, crypto).Recovered?
    ensures ok ==> account.View() == Recover(old(account.View()), chain, crypto).state
  {
    ghost var start := account.View();
    while true
      invariant Recover(start, chain, crypto) == Recover(account.View(), chain, crypto)
      decreases U32_SIZE - account.nonce
    {
      var expectedNullifier := if account.nonce == 0 then account.id else crypto.derive(account.id, account.nonce - 1);
      var expectedNullifierHash := crypto.hash(expectedNullifier);
      var found := GetShielderAction(chain, expectedNullifierHash);
      if found.Err? {
        return false;
      }
      if found.value.None? {
        return true;
      }
      var registered := account.RegisterAction(found.value.value);
      if !registered {
        return false;
      }
    }
  }

  // -------- what the search finds --------

  // The event that the search takes for the call's.
  function EventOf(tx: Tx): Option<ContractEvent> {
    match tx.call
    case None => None
    case Some(call) => FirstEvent(tx.logs, call.kind)
  }

  // The search goes on behind the transaction: it is no call, or a call with an event that
  // names another nullifier.
  predicate Passed(tx: Tx, nullifier: nat) {
    tx.call.None? || (EventOf(tx).Some? && tx.call.value.nullifier != nullifier)
  }

  // The search for the nullifier ends at transaction j.
  ghost predicate EndsAt(txs: seq<Tx>, nullifier: nat, j: nat) {
    j < |txs| && !Passed(txs[j], nullifier) && forall i :: 0 <= i < j ==> Passed(txs[i], nullifier)
  }

  ghost predicate PassesAll(txs: seq<Tx>, nullifier: nat) {
    forall i :: 0 <= i < |txs| ==> Passed(txs[i], nullifier)
  }

  // The three results of a search: nothing, an error at a call without an event, or the
  // action of the first call that names the nullifier, whoever made it.
  lemma FindActionExact(txs: seq<Tx>, nullifier: nat)
    ensures FindAction(txs, nullifier) == Ok(None) <==> PassesAll(txs, nullifier)
    ensures FindAction(txs, nullifier).Err? <==>
            exists j: nat :: EndsAt(txs, nullifier, j) && EventOf(txs[j]).None?
    ensures forall j: nat :: EndsAt(txs, nullifier, j) ==>
              FindAction(txs, nullifier)
              == if EventOf(txs[j]).None? then Err(EventNotFound) else Ok(Some(ToAction(txs[j], EventOf(txs[j]).value)))
  {
    hide FindAction, EventOf, Passed;
    forall j: nat | EndsAt(txs, nullifier, j)
      ensures FindAction(txs, nullifier)
              == if EventOf(txs[j]).None? then Err(EventNotFound) else Ok(Some(ToAction(txs[j], EventOf(txs[j]).value)))
    {
      FindActionAt(txs, nullifier, j);
    }
    if PassesAll(txs, nullifier) {
      FindActionNone(txs, nullifier);
    } else {
      var j := SearchEnds(txs, nullifier);
    }
  }

  lemma {:induction false} FindActionAt(txs: seq<Tx>, nullifier: nat, j: nat)
    requires EndsAt(txs, nullifier, j)
    ensures FindAction(txs, nullifier)
            == if EventOf(txs[j]).None? then Err(EventNotFound) else Ok(Some(ToAction(txs[j], EventOf(txs[j]).value)))
  {
    if j > 0 {
      EndsLater(txs, nullifier, j - 1);
      FindActionAt(txs[1..], nullifier, j - 1);
    }
  }

  lemma {:induction false} FindActionNone(txs: seq<Tx>, nullifier: nat)
    requires PassesAll(txs, nullifier)
    ensures FindAction(txs, nullifier) == Ok(None)
  {
    if txs != [] {
      assert forall i :: 0 <= i < |txs[1..]| ==> txs[1..][i] == txs[i + 1];
      FindActionNone(txs[1..], nullifier);
    }
  }

  lemma SearchEnds(txs: seq<Tx>, nullifier: nat) returns (j: nat)
    requires !PassesAll(txs, nullifier)
    ensures EndsAt(txs, nullifier, j)
  {
    hide Passed;
    j := 0;
    while j < |txs| && Passed(txs[j], nullifier)
      invariant j <= |txs| && forall i :: 0 <= i < j ==> Passed(txs[i], nullifier)
    {
      j := j + 1;
    }
  }

  lemma EndsLater(txs: seq<Tx>, nullifier: nat, j: nat)
    requires txs != [] && Passed(txs[0], nullifier)
    ensures EndsAt(txs, nullifier, j + 1) <==> EndsAt(txs[1..], nullifier, j)
  {
    assert forall i :: 0 < i < |txs| ==> txs[i] == txs[1..][i - 1];
    if EndsAt(txs, nullifier, j + 1) {
      assert forall i :: 0 <= i < j ==> txs[1..][i] == txs[i + 1];
    }
  }

  // -------- what the contract keeps --------

  // A place in the chain: spending `which` of transaction `index` of block `block`.
  datatype Position = Position(block: nat, index: nat, which: nat)

  predicate IsPosition(chain: Chain, at: Position) {
    && at.block < |chain.blocks| && at.index < |chain.blocks[at.block]|
    && at.which < |chain.blocks[at.block][at.index].spent|
  }

  function TxAt(chain: Chain, at: Position): Tx
    requires IsPosition(chain, at)
  {
    chain.blocks[at.block][at.index]
  }

  function SpendingAt(chain: Chain, at: Position): Spending
    requires IsPosition(chain, at)
  {
    TxAt(chain, at).spent[at.which]
  }

  // The contract records for every nullifier that it spends where it was spent. Nothing is
  // said about transactions of others.
  ghost predicate ContractKept(chain: Chain) {
    && |chain.blocks| < MAX_BLOCK_NUMBER
    && (forall at :: IsPosition(chain, at) ==>
          var n := SpendingAt(chain, at).nullifier; n in chain.nullifiers && chain.nullifiers[n] == at.block + 1)
    && (forall b :: 0 <= b < |chain.blocks| ==> DistinctHashes(chain.blocks[b]))
  }

  ghost predicate DistinctHashes(txs: seq<Tx>) {
    forall i, j :: 0 <= i < j < |txs| ==> txs[i].hash != txs[j].hash
  }

  // The spending is visible to the search: its transaction is itself a call that names the
  // nullifier, the first event of the call's kind in its logs is the contract's, and every
  // call before it in the block has an event and names another nullifier.
  ghost predicate Findable(chain: Chain, at: Position)
    requires IsPosition(chain, at)
  {
    var txs, sp := chain.blocks[at.block], SpendingAt(chain, at);
    && txs[at.index].call.Some? && txs[at.index].call.value.nullifier == sp.nullifier
    && EventOf(txs[at.index]) == Some(sp.event)
    && forall i :: 0 <= i < at.index ==> Passed(txs[i], sp.nullifier)
  }

  function TrueAction(chain: Chain, at: Position): Action
    requires IsPosition(chain, at)
  {
    ToAction(TxAt(chain, at), SpendingAt(chain, at).event)
  }

  lemma ToActionInjective(t: Tx, u: Tx, e: ContractEvent, f: ContractEvent)
    ensures ToAction(t, e) == ToAction(u, f) ==> t.hash == u.hash && e == f
  {
  }

  // A spent nullifier is looked up in its block. The search there gives the true action
  // exactly if the spending is findable. Otherwise it stops with an error, or it finds
  // nothing although the nullifier is spent, or it returns an action that is not the one that
  // spent the nullifier.
  lemma SpentOutcome(chain: Chain, at: Position)
    requires ContractKept(chain) && IsPosition(chain, at)
    ensures var n := SpendingAt(chain, at).nullifier;
            && ActionOf(chain, n) == FindAction(chain.blocks[at.block], n)
            && (ActionOf(chain, n) == Ok(Some(TrueAction(chain, at))) <==> Findable(chain, at))
  {
    hide FindAction, EventOf, Passed, FirstEvent;
    var txs, sp := chain.blocks[at.block], SpendingAt(chain, at);
    var n := sp.nullifier;
    assert n in chain.nullifiers && chain.nullifiers[n] == at.block + 1;
    assert DistinctHashes(txs);
    FoundIff(txs, n, at.index, sp.event);
  }

  // The search returns the action of transaction i with event e exactly if it ends there.
  lemma FoundIff(txs: seq<Tx>, nullifier: nat, i: nat, e: ContractEvent)
    requires i < |txs| && DistinctHashes(txs)
    ensures FindAction(txs, nullifier) == Ok(Some(ToAction(txs[i], e))) <==>
            && txs[i].call.Some? && txs[i].call.value.nullifier == nullifier && EventOf(txs[i]) == Some(e)
            && forall j :: 0 <= j < i ==> Passed(txs[j], nullifier)
  {
    hide FindAction, FirstEvent, ToAction;
    FindActionExact(txs, nullifier);
    if FindAction(txs, nullifier) == Ok(Some(ToAction(txs[i], e))) {
      var j := SearchEnds(txs, nullifier);
      ToActionInjective(txs[j], txs[i], EventOf(txs[j]).value, e);
      assert j == i;
    } else if EndsAt(txs, nullifier, i) {
      FindActionAt(txs, nullifier, i);
    }
  }

  // -------- recovery and history --------

  // The nullifier that action k spends, hashed as the contract sees it.
  function SpentBy(id: nat, k: nat, crypto: Crypto): nat {
    crypto.hash(if k == 0 then id else crypto.derive(id, k - 1))
  }

  // Action k of the account is what the contract did at position `at`.
  ghost predicate PerformedAt(chain: Chain, crypto: Crypto, id: nat, k: nat, action: Action, at: Position) {
    && IsPosition(chain, at)
    && SpendingAt(chain, at).nullifier == SpentBy(id, k, crypto)
    && action == TrueAction(chain, at)
  }

  // The account performed exactly these actions, at these positions.
  ghost predicate Performed(chain: Chain, crypto: Crypto, id: nat, actions: seq<Action>, at: seq<Position>) {
    && |at| == |actions|
    && (forall k :: 0 <= k < |actions| ==> PerformedAt(chain, crypto, id, k, actions[k], at[k]))
    && BlockOfSpending(chain, SpentBy(id, |actions|, crypto)) == Ok(None)
  }

  ghost predicate AllFindable(chain: Chain, at: seq<Position>, lo: nat, hi: nat)
    requires hi <= |at|
  {
    forall k :: lo <= k < hi ==> IsPosition(chain, at[k]) && Findable(chain, at[k])
  }

  // As long as actions can be found, recovery follows the history.
  lemma {:induction false} RecoveryFollows(
      chain: Chain, crypto: Crypto, id: nat, token: Token, actions: seq<Action>, at: seq<Position>, j: nat, k: nat)
    requires ContractKept(chain) && Performed(chain, crypto, id, actions, at) && j <= k <= |actions|
    requires RegisterAll(New(id, token), actions).Done? && AllFindable(chain, at, j, k)
    ensures RegisterAll(New(id, token), actions[..j]).Done? && RegisterAll(New(id, token), actions[..k]).Done?
    ensures Recover(RegisterAll(New(id, token), actions[..j]).value, chain, crypto)
            == Recover(RegisterAll(New(id, token), actions[..k]).value, chain, crypto)
    decreases k - j
  {
    hide ContractKept, PerformedAt, Findable, ActionOf, Register, RegisterAll, Recover, SpentBy, IsPosition;
    var s := StateAfter(id, token, actions, j, crypto);
    if j < k {
      assert PerformedAt(chain, crypto, id, j, actions[j], at[j]);
      PerformedOutcome(chain, crypto, id, j, actions[j], at[j]);
      var t := StateAfter(id, token, actions, j + 1, crypto);
      assert actions[..j + 1][..j] == actions[..j] && actions[..j + 1][j] == actions[j];
      RegisterAllSnoc(New(id, token), actions[..j + 1]);
      RecoverTurn(s, chain, crypto, actions[j], t);
      RecoveryFollows(chain, crypto, id, token, actions, at, j + 1, k);
    }
  }

  lemma PerformedOutcome(chain: Chain, crypto: Crypto, id: nat, k: nat, action: Action, at: Position)
    requires ContractKept(chain) && PerformedAt(chain, crypto, id, k, action, at)
    ensures IsPosition(chain, at)
    ensures ActionOf(chain, SpentBy(id, k, crypto)) == Ok(Some(action)) <==> Findable(chain, at)
    ensures ActionOf(chain, SpentBy(id, k, crypto)).Err? ==> ActionOf(chain, SpentBy(id, k, crypto)).error.EventNotFound?
  {
    SpentOutcome(chain, at);
    var txs, n := chain.blocks[at.block], SpentBy(id, k, crypto);
    FindActionExact(txs, n);
  }

  // Where the first action that cannot be found is action k, recovery from any earlier state
  // fails, or silently ends with the history cut at k, or goes on with an action that the
  // account did not perform.
  lemma RecoveryDiverges(
      chain: Chain, crypto: Crypto, id: nat, token: Token, actions: seq<Action>, at: seq<Position>, j: nat, k: nat)
    requires ContractKept(chain) && Performed(chain, crypto, id, actions, at) && j <= k < |actions|
    requires RegisterAll(New(id, token), actions).Done? && AllFindable(chain, at, j, k)
    requires IsPosition(chain, at[k]) && !Findable(chain, at[k])
    ensures RegisterAll(New(id, token), actions[..j]).Done? && RegisterAll(New(id, token), actions[..k]).Done?
    ensures var s := RegisterAll(New(id, token), actions[..k]).value;
            var r := Recover(RegisterAll(New(id, token), actions[..j]).value, chain, crypto);
            match ActionOf(chain, SpentBy(id, k, crypto))
            case Err(_) => r == Failed(EventNotFound)
            case Ok(None) => r == Recovered(s)
            case Ok(Some(wrong)) =>
              wrong != actions[k] && r == Continue(Register(s, wrong), chain, crypto)
  {
    RecoveryFollows(chain, crypto, id, token, actions, at, j, k);
    hide ContractKept, Findable, ActionOf, Register, RegisterAll, SpentBy, IsPosition;
    var s := StateAfter(id, token, actions, k, crypto);
    assert PerformedAt(chain, crypto, id, k, actions[k], at[k]);
    PerformedOutcome(chain, crypto, id, k, actions[k], at[k]);
  }

  // Whatever it registers, recovery only adds to the history.
  lemma {:induction false} RecoverExtends(s: State, chain: Chain, crypto: Crypto)
    requires Recover(s, chain, crypto).Recovered?
    ensures s.history <= Recover(s, chain, crypto).state.history
    decreases U32_SIZE - s.nonce
  {
    var found := ActionOf(chain, Expected(s, crypto));
    if found.value.Some? {
      RecoverExtends(Register(s, found.value.value).value, chain, crypto);
    }
  }

  // From the state after any prefix of its history, recovery ends with the state after the
  // whole history if and only if every remaining action can be found.
  lemma RecoveryEqualsHistory(
      chain: Chain, crypto: Crypto, id: nat, token: Token, actions: seq<Action>, at: seq<Position>, j: nat)
    requires ContractKept(chain) && Performed(chain, crypto, id, actions, at) && j <= |actions|
    requires RegisterAll(New(id, token), actions).Done?
    ensures RegisterAll(New(id, token), actions[..j]).Done?
    ensures Recover(RegisterAll(New(id, token), actions[..j]).value, chain, crypto)
            == Recovered(RegisterAll(New(id, token), actions).value)
            <==> AllFindable(chain, at, j, |actions|)
  {
    hide ContractKept, PerformedAt, Findable, ActionOf, Register, RegisterAll, Recover, SpentBy, IsPosition;
    var s := StateAfter(id, token, actions, j, crypto);
    if AllFindable(chain, at, j, |actions|) {
      RecoveryFollows(chain, crypto, id, token, actions, at, j, |actions|);
      var t := StateAfter(id, token, actions, |actions|, crypto);
      assert actions[..|actions|] == actions;
      RecoverEnds(t, chain, crypto);
    } else {
      var k := FirstUnfindable(chain, crypto, id, actions, at, j);
      MissedHistory(chain, crypto, id, token, actions, at, j, k);
    }
  }

  lemma FirstUnfindable(chain: Chain, crypto: Crypto, id: nat, actions: seq<Action>, at: seq<Position>, j: nat)
    returns (k: nat)
    requires Performed(chain, crypto, id, actions, at) && j <= |actions| && !AllFindable(chain, at, j, |actions|)
    ensures j <= k < |actions| && AllFindable(chain, at, j, k) && IsPosition(chain, at[k]) && !Findable(chain, at[k])
  {
    hide Findable, IsPosition, SpentBy;
    k := j;
    while k < |actions| && IsPosition(chain, at[k]) && Findable(chain, at[k])
      invariant j <= k <= |actions| && AllFindable(chain, at, j, k)
    {
      k := k + 1;
    }
    assert PerformedAt(chain, crypto, id, k, actions[k], at[k]);
  }

  lemma MissedHistory(
      chain: Chain, crypto: Crypto, id: nat, token: Token, actions: seq<Action>, at: seq<Position>, j: nat, k: nat)
    requires ContractKept(chain) && Performed(chain, crypto, id, actions, at) && j <= k < |actions|
    requires RegisterAll(New(id, token), actions).Done? && AllFindable(chain, at, j, k)
    requires IsPosition(chain, at[k]) && !Findable(chain, at[k])
    ensures RegisterAll(New(id, token), actions[..j]).Done?
    ensures Recover(RegisterAll(New(id, token), actions[..j]).value, chain, crypto)
            != Recovered(RegisterAll(New(id, token), actions).value)
  {
    RecoveryDiverges(chain, crypto, id, token, actions, at, j, k);
    hide ContractKept, PerformedAt, Findable, ActionOf, RegisterAll, Register, Recover, Continue, SpentBy, IsPosition;
    RegisterAllKeeps(id, token, actions);
    RegisterAllKeeps(id, token, actions[..k]);
    var s := RegisterAll(New(id, token), actions[..k]).value;
    var found := ActionOf(chain, SpentBy(id, k, crypto));
    if found.Ok? && found.value.Some? && Continue(Register(s, found.value.value), chain, crypto).Recovered? {
      ContinueKeeps(s, found.value.value, chain, crypto);
    }
  }

  // A registered action stays in the history.
  lemma ContinueKeeps(s: State, action: Action, chain: Chain, crypto: Crypto)
    requires Continue(Register(s, action), chain, crypto).Recovered?
    ensures s.history + [action] <= Continue(Register(s, action), chain, crypto).state.history
  {
    hide Recover;
    RecoverExtends(Register(s, action).value, chain, crypto);
  }

  lemma StateAfter(id: nat, token: Token, actions: seq<Action>, j: nat, crypto: Crypto) returns (s: State)
    requires RegisterAll(New(id, token), actions).Done? && j <= |actions|
    ensures RegisterAll(New(id, token), actions[..j]) == Done(s) && Expected(s, crypto) == SpentBy(id, j, crypto)
  {
    PrefixRegisters(New(id, token), actions, j);
    RegisterAllKeeps(id, token, actions[..j]);
    s := RegisterAll(New(id, token), actions[..j]).value;
  }

  lemma RecoverEnds(s: State, chain: Chain, crypto: Crypto)
    requires BlockOfSpending(chain, Expected(s, crypto)) == Ok(None)
    ensures Recover(s, chain, crypto) == Recovered(s)
  {
  }

  lemma RecoverTurn(s: State, chain: Chain, crypto: Crypto, action: Action, t: State)
    requires ActionOf(chain, Expected(s, crypto)) == Ok(Some(action)) && Register(s, action) == Done(t)
    ensures Recover(s, chain, crypto) == Recover(t, chain, crypto)
  {
  }

  lemma PrefixRegisters(s: State, actions: seq<Action>, j: nat)
    requires j <= |actions| && RegisterAll(s, actions).Done?
    ensures RegisterAll(s, actions[..j]).Done?
  {
    assert actions == actions[..j] + actions[j..];
    RegisterAllConcat(s, actions[..j], actions[j..]);
  }

  // Running recovery again changes nothing, whatever the chain.
  lemma {:induction false} RecoveryIsIdempotent(s: State, chain: Chain, crypto: Crypto)
    requires Recover(s, chain, crypto).Recovered?
    ensures var t := Recover(s, chain, crypto).state; Recover(t, chain, crypto) == Recovered(t)
    decreases U32_SIZE - s.nonce
  {
    var found := ActionOf(chain, Expected(s, crypto));
    if found.value.Some? {
      RecoveryIsIdempotent(Register(s, found.value.value).value, chain, crypto);
    }
  }

  // -------- the recovered state, read off the events of the contract --------

  function EventAt(chain: Chain, at: Position): ContractEvent
    requires IsPosition(chain, at)
  {
    SpendingAt(chain, at).event
  }

  // What came in less fees, less what was withdrawn.
  function EventBalance(chain: Chain, at: seq<Position>): int
    requires forall k :: 0 <= k < |at| ==> IsPosition(chain, at[k])
  {
    if at == [] then 0 else
    var n := |at| - 1;
    EventBalance(chain, at[..n])
    + match EventAt(chain, at[n])
      case NewAccountLog(d) => d.amount - d.protocolFee
      case DepositLog(d) => d.amount - d.protocolFee
      case WithdrawLog(d, _) => 0 - d.amount
  }

  // The entry of the history says what the event says.
  ghost predicate Records(a: Action, tx: Tx, e: ContractEvent) {
    && (a.NewAccount? <==> e.NewAccountLog?) && (a.Deposit? <==> e.DepositLog?) && (a.Withdraw? <==> e.WithdrawLog?)
    && a.data.amount == e.data.amount && a.data.protocolFee == e.data.protocolFee && a.data.token == e.data.token
    && a.data.noteIndex == e.data.newNoteIndex && a.data.txHash == tx.hash
    && (a.Withdraw? ==> a.to == e.withdrawalAddress)
  }

  ghost predicate EventFeesFit(chain: Chain, at: seq<Position>)
    requires forall k :: 0 <= k < |at| ==> IsPosition(chain, at[k])
  {
    forall k :: 0 <= k < |at| && !EventAt(chain, at[k]).WithdrawLog? ==>
      EventAt(chain, at[k]).data.protocolFee <= EventAt(chain, at[k]).data.amount
  }

  lemma {:induction false} BalanceOfEvents(chain: Chain, crypto: Crypto, id: nat, actions: seq<Action>, at: seq<Position>)
    requires |at| == |actions|
    requires forall k :: 0 <= k < |actions| ==> PerformedAt(chain, crypto, id, k, actions[k], at[k])
    ensures forall k :: 0 <= k < |at| ==> IsPosition(chain, at[k])
    ensures Balance(actions) == EventBalance(chain, at)
    ensures EventFeesFit(chain, at) ==> FeesFit(actions)
    ensures forall k :: 0 <= k < |at| ==> Records(actions[k], TxAt(chain, at[k]), EventAt(chain, at[k]))
  {
    hide SpentBy;
    if at != [] {
      var n := |at| - 1;
      BalanceOfEvents(chain, crypto, id, actions[..n], at[..n]);
      assert PerformedAt(chain, crypto, id, n, actions[n], at[n]);
      forall k | 0 <= k < |at|
        ensures IsPosition(chain, at[k]) && Records(actions[k], TxAt(chain, at[k]), EventAt(chain, at[k]))
      {
        assert PerformedAt(chain, crypto, id, k, actions[k], at[k]);
      }
    }
  }

  // When every action can be found, recovery from any prefix ends with a nonce that counts the
  // events of the account, the balance that they leave, the leaf of the last one, and a history
  // that says what they say.
  lemma RecoveredFromEvents(
      chain: Chain, crypto: Crypto, id: nat, token: Token, actions: seq<Action>, at: seq<Position>, j: nat)
    requires ContractKept(chain) && Performed(chain, crypto, id, actions, at) && j <= |actions|
    requires RegisterAll(New(id, token), actions).Done? && AllFindable(chain, at, j, |actions|)
    ensures RegisterAll(New(id, token), actions[..j]).Done?
    ensures forall k :: 0 <= k < |at| ==> IsPosition(chain, at[k])
    ensures var r := Recover(RegisterAll(New(id, token), actions[..j]).value, chain, crypto);
            && r.Recovered?
            && r.state.id == id && r.state.token == token && r.state.nonce == |at| == |r.state.history|
            && (EventFeesFit(chain, at) ==> r.state.shieldedAmount == EventBalance(chain, at))
            && (at != [] ==> CurrentLeafIndex(r.state) == Some(EventAt(chain, at[|at| - 1]).data.newNoteIndex))
            && forall k :: 0 <= k < |at| ==> Records(r.state.history[k], TxAt(chain, at[k]), EventAt(chain, at[k]))
  {
    hide ContractKept, Findable, ActionOf, Register, RegisterAll, Recover, SpentBy, IsPosition, PerformedAt, Balance, EventBalance;
    RecoveryEqualsHistory(chain, crypto, id, token, actions, at, j);
    RegisterAllKeeps(id, token, actions);
    BalanceOfEvents(chain, crypto, id, actions, at);
    if EventFeesFit(chain, at) {
      BalanceConserved(id, token, actions);
    }
    if at != [] {
      assert Records(actions[|at| - 1], TxAt(chain, at[|at| - 1]), EventAt(chain, at[|at| - 1]));
    }
  }

  // The event taken for a call's is the first in the logs that is of the call's kind.
  lemma {:induction false} FirstEventExact(logs: seq<ContractEvent>, kind: Kind)
    ensures match FirstEvent(logs, kind)
            case None => forall i :: 0 <= i < |logs| ==> !OfKind(logs[i], kind)
            case Some(e) =>
              exists i :: 0 <= i < |logs| && logs[i] == e && OfKind(e, kind)
                          && forall j :: 0 <= j < i ==> !OfKind(logs[j], kind)
  {
    if logs != [] {
      if KindOf(logs[0]) == kind {
        assert logs[0] == FirstEvent(logs, kind).value;
      } else {
        var rest := logs[1..];
        FirstEventExact(rest, kind);
        assert forall j :: 0 < j < |logs| ==> logs[j] == rest[j - 1];
        if FirstEvent(logs, kind).Some? {
          var e := FirstEvent(rest, kind).value;
          var i :| 0 <= i < |rest| && rest[i] == e && OfKind(e, kind) && forall j :: 0 <= j < i ==> !OfKind(rest[j], kind);
          assert logs[i + 1] == e;
        }
      }
    }
  }

  // The contract's map holds the number of the block plus one: zero, or no entry, is unspent,
  // and numbers from the largest block number on are refused.
  lemma BlockOfSpendingExact(chain: Chain, nullifier: nat)
    ensures BlockOfSpending(chain, nullifier) == Ok(None) <==>
            nullifier !in chain.nullifiers || chain.nullifiers[nullifier] == 0
    ensures forall b: nat :: BlockOfSpending(chain, nullifier) == Ok(Some(b)) <==>
              nullifier in chain.nullifiers && chain.nullifiers[nullifier] == b + 1 && b < 0xFFFF_FFFF_FFFF_FFFF
    ensures BlockOfSpending(chain, nullifier) == Err(BlockNumberTooLarge) <==>
            nullifier in chain.nullifiers && chain.nullifiers[nullifier] > 0xFFFF_FFFF_FFFF_FFFF
    ensures forall b: nat :: BlockOfSpending(chain, nullifier) == Ok(Some(b)) && b >= |chain.blocks| ==>
              ActionOf(chain, nullifier) == Err(BlockNotFound)
  {
  }

  predicate OfKind(e: ContractEvent, kind: Kind) {
    || (kind.NewAccountKind? && e.NewAccountLog?)
    || (kind.DepositKind? && e.DepositLog?)
    || (kind.WithdrawKind? && e.WithdrawLog?)
  }

  // -------- two histories that recovery misses --------

  function OneBlock(txs: seq<Tx>, nullifier: nat): Chain {
    Chain([txs], map[nullifier := 1])
  }

  // A creation of the account with data d, called as `call`, with its event after `others`.
  function Creation(hash: nat, nullifier: nat, call: Option<Call>, d: EventData, others: seq<ContractEvent>): Tx {
    Tx(hash, call, others + [NewAccountLog(d)], [Spending(nullifier, NewAccountLog(d))])
  }

  function CreationAction(hash: nat, d: EventData): Action {
    NewAccount(TxData(d.amount, d.newNoteIndex, hash, d.token, d.protocolFee))
  }

  ghost predicate Plain(d: EventData, token: Token) {
    d.token == token && d.protocolFee <= d.amount < WORD_SIZE
  }

  lemma CreationPerformed(id: nat, crypto: Crypto, txs: seq<Tx>, i: nat, d: EventData, token: Token)
    requires i < |txs| && DistinctHashes(txs) && Plain(d, token)
    requires SpentBy(id, 1, crypto) != SpentBy(id, 0, crypto)
    requires forall j :: 0 <= j < |txs| ==>
               txs[j].spent == if j == i then [Spending(SpentBy(id, 0, crypto), NewAccountLog(d))] else []
    ensures var chain := OneBlock(txs, SpentBy(id, 0, crypto));
            && ContractKept(chain)
            && Performed(chain, crypto, id, [CreationAction(txs[i].hash, d)], [Position(0, i, 0)])
    ensures RegisterAll(New(id, token), [CreationAction(txs[i].hash, d)]).Done?
  {
    var chain, actions := OneBlock(txs, SpentBy(id, 0, crypto)), [CreationAction(txs[i].hash, d)];
    assert actions[1..] == [];
    assert PerformedAt(chain, crypto, id, 0, actions[0], Position(0, i, 0));
  }

  // A transaction of another contract that decodes as a deposit with the account's nullifier,
  // earlier in the block, is taken for the action: the account ends with its amount and leaf.
  lemma ForeignCallIsBelieved(id: nat, crypto: Crypto, token: Token, d: EventData, foreign: EventData)
    requires Plain(d, token) && Plain(foreign, token) && SpentBy(id, 1, crypto) != SpentBy(id, 0, crypto)
    ensures var n := SpentBy(id, 0, crypto);
            var fake := Tx(1, Some(Call(DepositKind, n)), [DepositLog(foreign)], []);
            var chain := OneBlock([fake, Creation(2, n, Some(Call(NewAccountKind, n)), d, [])], n);
            && ContractKept(chain)
            && Performed(chain, crypto, id, [CreationAction(2, d)], [Position(0, 1, 0)])
            && Recover(New(id, token), chain, crypto)
               == Recovered(State(id, token, 1, foreign.amount - foreign.protocolFee,
                                  [Deposit(TxData(foreign.amount, foreign.newNoteIndex, 1, token, foreign.protocolFee))]))
  {
    var n := SpentBy(id, 0, crypto);
    var fake := Tx(1, Some(Call(DepositKind, n)), [DepositLog(foreign)], []);
    var txs := [fake, Creation(2, n, Some(Call(NewAccountKind, n)), d, [])];
    CreationPerformed(id, crypto, txs, 1, d, token);
    var wrong := Deposit(TxData(foreign.amount, foreign.newNoteIndex, 1, token, foreign.protocolFee));
    var t := State(id, token, 1, foreign.amount - foreign.protocolFee, [wrong]);
    var chain := OneBlock(txs, n);
    assert EventOf(fake) == Some(DepositLog(foreign));
    assert EndsAt(txs, n, 0);
    FindActionAt(txs, n, 0);
    assert ActionOf(chain, Expected(New(id, token), crypto)) == Ok(Some(wrong));
    assert New(id, token).history + [wrong] == [wrong];
    assert Register(New(id, token), wrong) == Done(t);
    RecoverTurn(New(id, token), chain, crypto, wrong, t);
    RecoverEnds(t, chain, crypto);
  }

  // An action made through another contract, so that the input of the transaction does not
  // decode, is not found: recovery ends without an error and without the action.
  lemma WrappedCallIsMissed(id: nat, crypto: Crypto, token: Token, d: EventData)
    requires Plain(d, token) && SpentBy(id, 1, crypto) != SpentBy(id, 0, crypto)
    ensures var n := SpentBy(id, 0, crypto);
            var chain := OneBlock([Creation(1, n, None, d, [])], n);
            && ContractKept(chain)
            && Performed(chain, crypto, id, [CreationAction(1, d)], [Position(0, 0, 0)])
            && Recover(New(id, token), chain, crypto) == Recovered(New(id, token))
  {
    var n := SpentBy(id, 0, crypto);
    var txs := [Creation(1, n, None, d, [])];
    CreationPerformed(id, crypto, txs, 0, d, token);
    FindActionNone(txs, n);
    assert ActionOf(OneBlock(txs, n), Expected(New(id, token), crypto)) == Ok(None);
  }

  // Even a direct call is misread when another contract logs an event of the same kind before
  // the contract does.
  lemma ForeignEventIsBelieved(id: nat, crypto: Crypto, token: Token, d: EventData, foreign: EventData)
    requires Plain(d, token) && Plain(foreign, token) && SpentBy(id, 1, crypto) != SpentBy(id, 0, crypto)
    ensures var n := SpentBy(id, 0, crypto);
            var chain := OneBlock([Creation(1, n, Some(Call(NewAccountKind, n)), d, [NewAccountLog(foreign)])], n);
            && ContractKept(chain)
            && Performed(chain, crypto, id, [CreationAction(1, d)], [Position(0, 0, 0)])
            && Recover(New(id, token), chain, crypto)
               == Recovered(State(id, token, 1, foreign.amount - foreign.protocolFee, [CreationAction(1, foreign)]))
  {
    var n := SpentBy(id, 0, crypto);
    var tx := Creation(1, n, Some(Call(NewAccountKind, n)), d, [NewAccountLog(foreign)]);
    CreationPerformed(id, crypto, [tx], 0, d, token);
    var wrong := CreationAction(1, foreign);
    var t := State(id, token, 1, foreign.amount - foreign.protocolFee, [wrong]);
    var chain := OneBlock([tx], n);
    assert tx.logs[0] == NewAccountLog(foreign);
    assert EventOf(tx) == Some(NewAccountLog(foreign));
    assert EndsAt([tx], n, 0);
    FindActionAt([tx], n, 0);
    assert ActionOf(chain, Expected(New(id, token), crypto)) == Ok(Some(wrong));
    assert New(id, token).history + [wrong] == [wrong];
    assert Register(New(id, token), wrong) == Done(t);
    RecoverTurn(New(id, token), chain, crypto, wrong, t);
    RecoverEnds(t, chain, crypto);
  }

  // -------- every turn consumes a spent nullifier --------

  ghost predicate Injective(crypto: Crypto, id: nat) {
    && (forall x, y :: crypto.hash(x) == crypto.hash(y) ==> x == y)
    && (forall i: nat, j: nat :: crypto.derive(id, i) == crypto.derive(id, j) ==> i == j)
    && (forall i: nat :: crypto.derive(id, i) != id)
  }

  lemma SpentByInjective(crypto: Crypto, id: nat, j: nat, k: nat)
    requires Injective(crypto, id) && j != k
    ensures SpentBy(id, j, crypto) != SpentBy(id, k, crypto)
  {
    if j > 0 && k > 0 {
      assert crypto.derive(id, j - 1) != crypto.derive(id, k - 1);
    }
  }

  // Distinct actions of an account are distinct spendings.
  lemma ActionsAreDistinct(chain: Chain, crypto: Crypto, id: nat, actions: seq<Action>, at: seq<Position>, j: nat, k: nat)
    requires Injective(crypto, id) && Performed(chain, crypto, id, actions, at) && j < k < |actions|
    ensures SpentBy(id, j, crypto) != SpentBy(id, k, crypto) && at[j] != at[k]
  {
    assert PerformedAt(chain, crypto, id, j, actions[j], at[j]);
    assert PerformedAt(chain, crypto, id, k, actions[k], at[k]);
    SpentByInjective(crypto, id, j, k);
  }

  // The turns of the loop that register an action or panic in doing so.
  function Turns(s: State, chain: Chain, crypto: Crypto): nat
    decreases U32_SIZE - s.nonce
  {
    match ActionOf(chain, Expected(s, crypto))
    case Ok(Some(action)) =>
      (match Register(s, action)
       case Panic(_) => 1
       case Done(t) => 1 + Turns(t, chain, crypto))
    case _ => 0
  }

  // On any chain, whoever made its transactions, the loop turns at most once for every spent
  // nullifier. Hence, with fewer than 2^32 of them ahead, the nonce cannot overflow, and it
  // does not matter whether the build checks for that.
  lemma TurnsBounded(s: State, chain: Chain, crypto: Crypto)
    requires Injective(crypto, s.id)
    ensures Turns(s, chain, crypto) <= |chain.nullifiers|
    ensures s.nonce + |chain.nullifiers| < U32_SIZE ==> Recover(s, chain, crypto) != Panicked(NonceOverflow)
  {
    hide Turns, Recover;
    var left := chain.nullifiers.Keys;
    TurnsWithin(s, chain, crypto, left);
  }

  lemma {:induction false} TurnsWithin(s: State, chain: Chain, crypto: Crypto, left: set<nat>)
    requires Injective(crypto, s.id)
    requires forall k: nat :: k >= s.nonce && SpentBy(s.id, k, crypto) in chain.nullifiers ==> SpentBy(s.id, k, crypto) in left
    ensures Turns(s, chain, crypto) <= |left|
    ensures s.nonce + |left| < U32_SIZE ==> Recover(s, chain, crypto) != Panicked(NonceOverflow)
    decreases U32_SIZE - s.nonce
  {
    var n := SpentBy(s.id, s.nonce, crypto);
    var found := ActionOf(chain, Expected(s, crypto));
    if found.Ok? && found.value.Some? {
      assert Expected(s, crypto) == n && n in chain.nullifiers;
      var rest := left - {n};
      assert |left| == |rest| + 1;
      var r := Register(s, found.value.value);
      if r.Done? {
        forall k: nat | k >= s.nonce + 1 && SpentBy(s.id, k, crypto) in chain.nullifiers
          ensures SpentBy(s.id, k, crypto) in rest
        {
          SpentByInjective(crypto, s.id, k, s.nonce);
        }
        TurnsWithin(r.value, chain, crypto, rest);
      }
    }
  }
}
