/**
  The account state of the TypeScript SDK, which folds the same events as the Rust account,
  and the agreement of the two.
 */
module LocalState {
  import opened Common
  import opened Account
  import opened Words

  // The event of an action, as the contract emits it.
  datatype EventName = NewAccountEvent | DepositEvent | WithdrawEvent

  datatype NoteEvent = NoteEvent(name: EventName, amount: nat, protocolFee: nat, newNoteIndex: nat)

  datatype TsState = TsState(
    id: nat, token: Token, nonce: nat, balance: int, currentNote: Option<Note>, currentNoteIndex: Option<nat>)

  // Null is the SDK's null result, Thrown an exception.
  datatype Outcome = Next(state: TsState) | Null | Thrown

  function EmptyState(id: nat, token: Token): TsState {
    TsState(id, token, 0, 0, None, None)
  }

  function RawAction(s: TsState, balanceNew: int, crypto: Crypto): Outcome {
    var nullifierNew := crypto.derive(s.id, s.nonce);
    if balanceNew < 0 then Null
    else if balanceNew >= R then Thrown  // not a scalar
    else Next(s.(nonce := s.nonce + 1, balance := balanceNew,
                 currentNote := Some(Note(s.id, nullifierNew, balanceNew, s.token))))
  }

  function NewStateByEvent(s: TsState, e: NoteEvent, crypto: Crypto): Outcome {
    var r :=
      match e.name
      case NewAccountEvent => RawAction(s, e.amount - e.protocolFee, crypto)
      case DepositEvent => RawAction(s, s.balance + (e.amount - e.protocolFee), crypto)
      case WithdrawEvent => RawAction(s, s.balance - e.amount, crypto);
    match r
    case Next(t) => Next(t.(currentNoteIndex := Some(e.newNoteIndex)))
    case _ => r
  }

  // The Rust action of an event.
  function ToAction(e: NoteEvent, token: Token): Action {
    var data := TxData(e.amount, e.newNoteIndex, 0, token, e.protocolFee);
    match e.name
    case NewAccountEvent => NewAccount(data)
    case DepositEvent => Deposit(data)
    case WithdrawEvent => Withdraw(0, data)
  }

  // Same nonce, balance, leaf index and note contents.
  ghost predicate Agree(rust: State, ts: TsState, crypto: Crypto) {
    && rust.id == ts.id && rust.token == ts.token && rust.nonce == ts.nonce
    && rust.shieldedAmount == ts.balance
    && CurrentLeafIndex(rust) == ts.currentNoteIndex
    && NoteOf(rust, crypto) == ts.currentNote
  }

  // An event that the contract can have emitted: the fee is part of the amount.
  predicate Plausible(e: NoteEvent) {
    e.protocolFee <= e.amount < WORD_SIZE
  }

  // One event on agreeing states. The Rust account panics on underflow exactly when the SDK
  // returns null; otherwise both move to agreeing states as long as the new balance is a
  // scalar, except for a NewAccount event on a nonzero balance, which the SDK overwrites and
  // the Rust account adds to.
  lemma StepAgrees(rust: State, ts: TsState, e: NoteEvent, crypto: Crypto)
    requires Agree(rust, ts, crypto) && Plausible(e) && rust.nonce + 1 < U32_SIZE
    ensures var r, t := Register(rust, ToAction(e, rust.token)), NewStateByEvent(ts, e, crypto);
            && (t.Null? <==> r == Panic(AmountUnderflow))
            && (r.Done? && t.Next? ==>
                  (Agree(r.value, t.state, crypto) <==> !(e.name.NewAccountEvent? && rust.shieldedAmount != 0)))
            && (!(e.name.NewAccountEvent? && rust.shieldedAmount != 0) ==>
                  && (t.Next? <==> r.Done? && r.value.shieldedAmount < R)
                  && (t.Thrown? <==> r == Panic(AmountOverflow) || (r.Done? && r.value.shieldedAmount >= R)))
  {
  }

  function RunTs(s: TsState, events: seq<NoteEvent>, crypto: Crypto): Outcome
    decreases events
  {
    if events == [] then Next(s) else
    match NewStateByEvent(s, events[0], crypto)
    case Next(t) => RunTs(t, events[1..], crypto)
    case failed => failed
  }

  function ToActions(events: seq<NoteEvent>, token: Token): seq<Action> {
    seq(|events|, i requires 0 <= i < |events| => ToAction(events[i], token))
  }

  // A NewAccount event first and never again.
  predicate History(events: seq<NoteEvent>) {
    && (forall i :: 0 <= i < |events| ==> Plausible(events[i]))
    && (forall i :: 0 <= i < |events| ==> (events[i].name.NewAccountEvent? <==> i == 0))
  }

  // Every balance along the way is a scalar.
  ghost predicate Scalars(s: State, actions: seq<Action>)
    decreases actions
  {
    && s.shieldedAmount < R
    && (actions != [] && Register(s, actions[0]).Done? ==> Scalars(Register(s, actions[0]).value, actions[1..]))
  }

  // Every NewAccount event finds the Rust account empty.
  ghost predicate MeetsZero(s: State, events: seq<NoteEvent>)
    decreases events
  {
    events != [] ==>
      && (events[0].name.NewAccountEvent? ==> s.shieldedAmount == 0)
      && var r := Register(s, ToAction(events[0], s.token));
         (r.Done? ==> MeetsZero(r.value, events[1..]))
  }

  lemma {:induction false} RunAgrees(rust: State, ts: TsState, events: seq<NoteEvent>, crypto: Crypto)
    requires Agree(rust, ts, crypto) && rust.nonce + |events| < U32_SIZE
    requires forall i :: 0 <= i < |events| ==> Plausible(events[i])
    requires MeetsZero(rust, events) && Scalars(rust, ToActions(events, rust.token))
    ensures var r, t := RegisterAll(rust, ToActions(events, rust.token)), RunTs(ts, events, crypto);
            && (r.Done? <==> t.Next?)
            && (r == Panic(AmountUnderflow) <==> t.Null?) && (r == Panic(AmountOverflow) <==> t.Thrown?)
            && (r.Done? ==> Agree(r.value, t.state, crypto))
    decreases events
  {
    if events != [] {
      var actions := ToActions(events, rust.token);
      assert actions[0] == ToAction(events[0], rust.token);
      assert actions[1..] == ToActions(events[1..], rust.token);
      StepAgrees(rust, ts, events[0], crypto);
      var r := Register(rust, actions[0]);
      if r.Done? {
        var t := NewStateByEvent(ts, events[0], crypto).state;
        assert forall i :: 0 <= i < |events[1..]| ==> events[1..][i] == events[i + 1];
        RunAgrees(r.value, t, events[1..], crypto);
      }
    }
  }

  // A Rust balance above that of the SDK stays above it.
  lemma {:induction false} StaysAbove(rust: State, ts: TsState, events: seq<NoteEvent>, crypto: Crypto)
    requires rust.shieldedAmount > ts.balance >= 0 && forall i :: 0 <= i < |events| ==> Plausible(events[i])
    ensures var r, t := RegisterAll(rust, ToActions(events, rust.token)), RunTs(ts, events, crypto);
            r.Done? && t.Next? ==> r.value.shieldedAmount > t.state.balance
    decreases events
  {
    if events != [] {
      var actions := ToActions(events, rust.token);
      assert actions[0] == ToAction(events[0], rust.token);
      assert actions[1..] == ToActions(events[1..], rust.token);
      var r, t := Register(rust, actions[0]), NewStateByEvent(ts, events[0], crypto);
      if r.Done? && t.Next? {
        assert forall i :: 0 <= i < |events[1..]| ==> events[1..][i] == events[i + 1];
        StaysAbove(r.value, t.state, events[1..], crypto);
      }
    }
  }

  // For any events from agreeing states: where both implementations succeed, they agree in the
  // end if and only if every NewAccount event found the account empty. A divergence is
  // permanent.
  lemma {:induction false} RunAgreesIff(rust: State, ts: TsState, events: seq<NoteEvent>, crypto: Crypto)
    requires Agree(rust, ts, crypto) && rust.nonce + |events| < U32_SIZE
    requires forall i :: 0 <= i < |events| ==> Plausible(events[i])
    ensures var r, t := RegisterAll(rust, ToActions(events, rust.token)), RunTs(ts, events, crypto);
            r.Done? && t.Next? ==> (Agree(r.value, t.state, crypto) <==> MeetsZero(rust, events))
    decreases events
  {
    if events != [] {
      var actions := ToActions(events, rust.token);
      assert actions[0] == ToAction(events[0], rust.token);
      assert actions[1..] == ToActions(events[1..], rust.token);
      StepAgrees(rust, ts, events[0], crypto);
      var r, t := Register(rust, actions[0]), NewStateByEvent(ts, events[0], crypto);
      if r.Done? && t.Next? {
        assert forall i :: 0 <= i < |events[1..]| ==> events[1..][i] == events[i + 1];
        if events[0].name.NewAccountEvent? && rust.shieldedAmount != 0 {
          StaysAbove(r.value, t.state, events[1..], crypto);
        } else {
          RunAgreesIff(r.value, t.state, events[1..], crypto);
        }
      }
    }
  }

  // The action says what the event says.
  ghost predicate Tells(a: Action, e: NoteEvent) {
    && (a.NewAccount? <==> e.name.NewAccountEvent?) && (a.Deposit? <==> e.name.DepositEvent?)
    && (a.Withdraw? <==> e.name.WithdrawEvent?)
    && a.data.amount == e.amount && a.data.protocolFee == e.protocolFee && a.data.noteIndex == e.newNoteIndex
  }

  // Rust and TypeScript agree on every history of one account and fail on the same ones: a
  // panic on underflow is a null, a panic on overflow an exception.
  lemma RustAndTypeScriptAgree(id: nat, token: Token, events: seq<NoteEvent>, crypto: Crypto)
    requires History(events) && |events| < U32_SIZE
    requires Scalars(New(id, token), ToActions(events, token))
    ensures var r, t := RegisterAll(New(id, token), ToActions(events, token)), RunTs(EmptyState(id, token), events, crypto);
            && (r.Done? <==> t.Next?)
            && (r == Panic(AmountUnderflow) <==> t.Null?) && (r == Panic(AmountOverflow) <==> t.Thrown?)
            && (r.Done? ==> Agree(r.value, t.state, crypto))
            && (r.Done? ==> |r.value.history| == |events| && forall i :: 0 <= i < |events| ==> Tells(r.value.history[i], events[i]))
  {
    if RegisterAll(New(id, token), ToActions(events, token)).Done? {
      RegisterAllKeeps(id, token, ToActions(events, token));
    }
    HistoryMeetsZero(New(id, token), events);
    RunAgrees(New(id, token), EmptyState(id, token), events, crypto);
  }

  lemma HistoryMeetsZero(s: State, events: seq<NoteEvent>)
    requires History(events) && s.shieldedAmount == 0
    ensures MeetsZero(s, events)
  {
    if events != [] {
      var r := Register(s, ToAction(events[0], s.token));
      if r.Done? {
        assert forall i :: 0 <= i < |events[1..]| ==> events[1..][i] == events[i + 1];
        LaterMeetsZero(r.value, events[1..]);
      }
    }
  }

  lemma {:induction false} LaterMeetsZero(s: State, events: seq<NoteEvent>)
    requires forall i :: 0 <= i < |events| ==> !events[i].name.NewAccountEvent?
    ensures MeetsZero(s, events)
    decreases events
  {
    if events != [] {
      var r := Register(s, ToAction(events[0], s.token));
      if r.Done? {
        LaterMeetsZero(r.value, events[1..]);
      }
    }
  }
}
