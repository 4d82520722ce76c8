/** A Shielder account for one token: its nonce, balance and history of actions. */
module Account {
  import opened Words
  import opened Common

  const U32_SIZE: nat := 0x1_0000_0000

  datatype Token = Native | ERC20(address: nat)

  datatype TxData = TxData(amount: nat, noteIndex: nat, txHash: nat, token: Token, protocolFee: nat)

  datatype Action = NewAccount(data: TxData) | Deposit(data: TxData) | Withdraw(to: nat, data: TxData)

  // Hashing and key derivation, which the account only applies.
  datatype Crypto = Crypto(derive: (nat, nat) -> nat, hash: nat -> nat)

  datatype State = State(id: nat, token: Token, nonce: nat, shieldedAmount: nat, history: seq<Action>)

  function New(id: nat, token: Token): State {
    State(id, token, 0, 0, [])
  }

  // Subtraction of 256-bit integers wraps.
  function WrappingSub(a: nat, b: nat): nat {
    if b <= a then a - b else (a - b) % WORD_SIZE
  }

  datatype Reason = TokenMismatch | AmountOverflow | AmountUnderflow | NonceOverflow

  datatype Result<+T> = Done(value: T) | Panic(reason: Reason)

  function Register(s: State, action: Action): Result<State> {
    if s.token != action.data.token then Panic(TokenMismatch) else
    match NewAmount(s.shieldedAmount, action)
    case Panic(reason) => Panic(reason)
    case Done(amount) =>
      if s.nonce + 1 >= U32_SIZE then Panic(NonceOverflow)
      else Done(s.(shieldedAmount := amount, nonce := s.nonce + 1, history := s.history + [action]))
  }

  function NewAmount(current: nat, action: Action): Result<nat> {
    match action
    case Withdraw(_, data) => if data.amount <= current then Done(current - data.amount) else Panic(AmountUnderflow)
    case _ =>
      var sum := current + WrappingSub(action.data.amount, action.data.protocolFee);
      if sum < WORD_SIZE then Done(sum) else Panic(AmountOverflow)
  }

  function RegisterAll(s: State, actions: seq<Action>): Result<State>
    decreases actions
  {
    if actions == [] then Done(s) else
    match Register(s, actions[0])
    case Panic(reason) => Panic(reason)
    case Done(t) => RegisterAll(t, actions[1..])
  }

  function CurrentLeafIndex(s: State): Option<nat> {
    if s.history == [] then None else Some(s.history[|s.history| - 1].data.noteIndex)
  }

  // The nullifier that the last action created and the next one spends.
  function PreviousNullifier(s: State, crypto: Crypto): nat {
    if s.nonce == 0 then s.id else crypto.derive(s.id, s.nonce - 1)
  }

  // What a note commits to.
  datatype Note = Note(id: nat, nullifier: nat, balance: nat, token: Token)

  function NoteOf(s: State, crypto: Crypto): Option<Note> {
    if s.nonce == 0 then None
    else Some(Note(s.id, PreviousNullifier(s, crypto), s.shieldedAmount, s.token))
  }

  class ShielderAccount {
    var id: nat
    var token: Token
    var nonce: nat
    var shieldedAmount: nat
    var history: seq<Action>

    constructor (id: nat, token: Token)
      ensures View() == New(id, token)
    {
      this.id, this.token := id, token;
      nonce, shieldedAmount, history := 0, 0, [];
    }

    ghost function View(): State
      reads this
    {
      State(id, token, nonce, shieldedAmount, history)
    }

    // Returns false where the original panics; the account is then as it was.
    method RegisterAction(action: Action) returns (ok: bool)
      modifies this
      ensures ok == Register(old(View()), action).Done?
      ensures View() == if ok then Register(old(View()), action).value else old(View())
    {
      if token != action.data.token {
        return false;
      }
      var amount;
      match action {
        case Withdraw(_, data) =>
          if data.amount > shieldedAmount {
            return false;
          }
          amount := shieldedAmount - data.amount;
        case _ =>
          amount := shieldedAmount + WrappingSub(action.data.amount, action.data.protocolFee);
          if amount >= WORD_SIZE {
            return false;
          }
      }
      if nonce + 1 >= U32_SIZE {
        return false;
      }
      shieldedAmount := amount;
      nonce := nonce + 1;
      history := history + [action];
      ok := true;
    }
  }

  // -------- what registering keeps --------

  // The balance is what came in minus fees minus what went out.
  function Balance(actions: seq<Action>): int {
    if actions == [] then 0 else
    var a := actions[|actions| - 1];
    Balance(actions[..|actions| - 1]) + if a.Withdraw? then 0 - a.data.amount else a.data.amount - a.data.protocolFee
  }

  ghost predicate FeesFit(actions: seq<Action>) {
    forall i :: 0 <= i < |actions| && !actions[i].Withdraw? ==> actions[i].data.protocolFee <= actions[i].data.amount
  }

  lemma {:induction false} RegisterAllConcat(s: State, a: seq<Action>, b: seq<Action>)
    ensures RegisterAll(s, a + b) == match RegisterAll(s, a) case Panic(r) => Panic(r) case Done(t) => RegisterAll(t, b)
    decreases a
  {
    if a == [] {
      assert a + b == b;
    } else {
      assert (a + b)[0] == a[0] && (a + b)[1..] == a[1..] + b;
      if Register(s, a[0]).Done? {
        RegisterAllConcat(Register(s, a[0]).value, a[1..], b);
      }
    }
  }

  lemma RegisterAllSnoc(s: State, actions: seq<Action>)
    requires actions != []
    ensures var n := |actions| - 1;
            RegisterAll(s, actions)
            == match RegisterAll(s, actions[..n]) case Panic(r) => Panic(r) case Done(t) => Register(t, actions[n])
  {
    var n := |actions| - 1;
    assert actions == actions[..n] + [actions[n]];
    RegisterAllConcat(s, actions[..n], [actions[n]]);
    assert [actions[n]][1..] == [];
  }

  // Whenever a history registers at all, the nonce counts it, the leaf is that of its last
  // action, and it is kept in full.
  lemma {:induction false} RegisterAllKeeps(id: nat, token: Token, actions: seq<Action>)
    requires RegisterAll(New(id, token), actions).Done?
    ensures var s := RegisterAll(New(id, token), actions).value;
            && s.id == id && s.token == token && s.history == actions && s.nonce == |actions|
            && CurrentLeafIndex(s) == if actions == [] then None else Some(actions[|actions| - 1].data.noteIndex)
  {
    if actions != [] {
      RegisterAllSnoc(New(id, token), actions);
      RegisterAllKeeps(id, token, actions[..|actions| - 1]);
      assert actions == actions[..|actions| - 1] + [actions[|actions| - 1]];
    }
  }

  // As long as fees are part of amounts, value is conserved.
  lemma {:induction false} BalanceConserved(id: nat, token: Token, actions: seq<Action>)
    requires FeesFit(actions) && RegisterAll(New(id, token), actions).Done?
    ensures RegisterAll(New(id, token), actions).value.shieldedAmount == Balance(actions)
  {
    if actions != [] {
      RegisterAllSnoc(New(id, token), actions);
      BalanceConserved(id, token, actions[..|actions| - 1]);
    }
  }

  // One action, over 256-bit amounts: it registers exactly if the token is the account's, the
  // nonce has room, and the balance neither underflows nor overflows, where a fee above the
  // amount wraps around. Then one action is added and the balance changes by its amount.
  lemma RegisterExact(s: State, a: Action)
    requires a.data.amount < WORD_SIZE && a.data.protocolFee < WORD_SIZE
    ensures var balance := if a.Withdraw? then s.shieldedAmount - a.data.amount
                           else s.shieldedAmount + (a.data.amount - a.data.protocolFee) % WORD_SIZE;
            && (Register(s, a).Done? <==>
                a.data.token == s.token && s.nonce + 1 < 0x1_0000_0000 && balance >= 0 && (a.Withdraw? || balance < WORD_SIZE))
            && (Register(s, a).Done? ==>
                  var t := Register(s, a).value;
                  t.id == s.id && t.token == s.token && t.nonce == s.nonce + 1 && t.shieldedAmount == balance
                  && t.history == s.history + [a])
  {
    if a.data.protocolFee <= a.data.amount {
      SmallMod(a.data.amount - a.data.protocolFee, WORD_SIZE);
    }
  }

  ghost predicate AmountsFit(actions: seq<Action>) {
    forall i :: 0 <= i < |actions| ==> actions[i].data.amount < WORD_SIZE && actions[i].data.protocolFee < WORD_SIZE
  }

  ghost predicate BalancesFit(actions: seq<Action>) {
    forall j :: 0 <= j <= |actions| ==> 0 <= Balance(actions[..j]) < WORD_SIZE
  }

  // A whole history registers exactly if all its actions are of the account's token, the nonce
  // can count them, and the balance stays within 256 bits after every one of them.
  lemma {:induction false} RegisterAllIff(id: nat, token: Token, actions: seq<Action>)
    requires FeesFit(actions) && AmountsFit(actions)
    ensures RegisterAll(New(id, token), actions).Done? <==>
            && (forall i :: 0 <= i < |actions| ==> actions[i].data.token == token)
            && |actions| < 0x1_0000_0000
            && BalancesFit(actions)
  {
    if actions == [] {
      assert forall j :: 0 <= j <= 0 ==> actions[..j] == [];
    } else {
      var n := |actions| - 1;
      var pre, a := actions[..n], actions[n];
      RegisterAllIff(id, token, pre);
      RegisterAllSnoc(New(id, token), actions);
      BalancesFitSnoc(actions);
      assert forall i :: 0 <= i < n ==> pre[i] == actions[i];
      assert pre[..n] == pre && (BalancesFit(pre) ==> 0 <= Balance(pre[..n]) < WORD_SIZE);
      assert Balance(actions) == Balance(pre) + if a.Withdraw? then 0 - a.data.amount else a.data.amount - a.data.protocolFee;
      hide Balance, Register, RegisterAll;
      if RegisterAll(New(id, token), pre).Done? {
        var s := RegisterAll(New(id, token), pre).value;
        RegisterAllKeeps(id, token, pre);
        BalanceConserved(id, token, pre);
        RegisterExact(s, a);
        if !a.Withdraw? {
          SmallMod(a.data.amount - a.data.protocolFee, WORD_SIZE);
        }
      }
    }
  }

  lemma BalancesFitSnoc(actions: seq<Action>)
    requires actions != []
    ensures BalancesFit(actions) <==> BalancesFit(actions[..|actions| - 1]) && 0 <= Balance(actions) < WORD_SIZE
  {
    var n := |actions| - 1;
    hide Balance;
    assert forall j :: 0 <= j <= n ==> actions[..n][..j] == actions[..j];
    assert actions[..|actions|] == actions;
    if BalancesFit(actions) {
      forall j | 0 <= j <= n
        ensures 0 <= Balance(actions[..n][..j]) < WORD_SIZE
      {
        assert 0 <= Balance(actions[..j]) < WORD_SIZE;
      }
    }
    if BalancesFit(actions[..n]) && 0 <= Balance(actions) < WORD_SIZE {
      forall j | 0 <= j <= |actions|
        ensures 0 <= Balance(actions[..j]) < WORD_SIZE
      {
        if j <= n {
          assert 0 <= Balance(actions[..n][..j]) < WORD_SIZE;
        }
      }
    }
  }
}
