/**
  The relayer's cache of quotes. A quote is stored with an expiration, and a garbage
  collector sweeps expired quotes beside the requests that store and check them.
 */
module QuoteCache {
  import opened Common

  type Quote = nat
  type Time = int

  // -------- the cache --------

  // What the methods do while they hold the lock. A check and a sweep have read the clock
  // before they wait for it: `now` is that reading.
  class Cache {
    const validity: nat
    var expirations: map<Quote, Time>

    constructor (validity: nat)
      ensures this.validity == validity && expirations == map[]
    {
      this.validity := validity;
      expirations := map[];
    }

    method StoreQuoteResponse(quote: Quote, at: Time)
      modifies this
      ensures expirations == Stored(old(expirations), validity, quote, at)
    {
      var expiration := at + validity;
      if quote in expirations {
        var previous := expirations[quote];
        expirations := expirations[quote := if expiration > previous then expiration else previous];
      } else {
        expirations := expirations[quote := expiration];
      }
    }

    method IsQuoteValid(quote: Quote, now: Time) returns (b: bool)
      ensures b == IsValid(expirations, quote, now)
    {
      if quote in expirations {
        b := expirations[quote] > now;
      } else {
        b := false;
      }
    }

    method CollectGarbage(now: Time)
      modifies this
      ensures expirations == Swept(old(expirations), now)
    {
      expirations := map q | q in expirations && expirations[q] > now :: expirations[q];
    }
  }

  function Stored(c: map<Quote, Time>, validity: nat, q: Quote, at: Time): map<Quote, Time> {
    c[q := if q in c && c[q] > at + validity then c[q] else at + validity]
  }

  predicate IsValid(c: map<Quote, Time>, q: Quote, now: Time) {
    q in c && c[q] > now
  }

  function Swept(c: map<Quote, Time>, now: Time): map<Quote, Time> {
    map q | q in c && c[q] > now :: c[q]
  }

  // -------- all interleavings, with any clock readings --------

  // In the order in which they take the lock; reading the clock does not take it.
  datatype Op = Store(quote: Quote, at: Time) | Check(quote: Quote, now: Time) | Sweep(now: Time) | ReadClock

  function Run(ops: seq<Op>, validity: nat): map<Quote, Time> {
    if ops == [] then map[] else
    var c := Run(ops[..|ops| - 1], validity);
    match ops[|ops| - 1]
    case Store(q, at) => Stored(c, validity, q, at)
    case Sweep(now) => Swept(c, now)
    case _ => c
  }

  // The store at position i is of quote q, and no later sweep ran at or after its expiration.
  ghost predicate Survives(ops: seq<Op>, validity: nat, i: nat, q: Quote)
    requires i < |ops|
  {
    && ops[i].Store? && ops[i].quote == q
    && forall j :: i < j < |ops| && ops[j].Sweep? ==> ops[i].at + validity > ops[j].now
  }

  // The cache holds, for every quote, the latest expiration among its surviving stores.
  ghost predicate Latest(ops: seq<Op>, validity: nat, q: Quote) {
    var c := Run(ops, validity);
    && (q in c ==> exists i :: 0 <= i < |ops| && Survives(ops, validity, i, q) && ops[i].at + validity == c[q])
    && (forall i :: 0 <= i < |ops| && Survives(ops, validity, i, q) ==> q in c && c[q] >= ops[i].at + validity)
  }

  lemma SurvivesPrefix(ops: seq<Op>, validity: nat, i: nat, q: Quote)
    requires i < |ops| - 1
    ensures var n := |ops| - 1;
            Survives(ops, validity, i, q) <==>
            Survives(ops[..n], validity, i, q) && (ops[n].Sweep? ==> ops[i].at + validity > ops[n].now)
  {
    var n := |ops| - 1;
    if Survives(ops[..n], validity, i, q) && (ops[n].Sweep? ==> ops[i].at + validity > ops[n].now) {
      forall j | i < j < |ops| && ops[j].Sweep?
        ensures ops[i].at + validity > ops[j].now
      {
        if j < n {
          assert ops[..n][j] == ops[j];
        }
      }
    }
    if Survives(ops, validity, i, q) {
      assert forall j :: i < j < n && ops[..n][j].Sweep? ==> ops[j].Sweep?;
    }
  }

  lemma {:induction false} CacheIsLatest(ops: seq<Op>, validity: nat, q: Quote)
    ensures Latest(ops, validity, q)
  {
    if ops != [] {
      var n := |ops| - 1;
      var pre, c0, c := ops[..n], Run(ops[..n], validity), Run(ops, validity);
      CacheIsLatest(pre, validity, q);
      forall i | 0 <= i < |ops| && Survives(ops, validity, i, q)
        ensures q in c && c[q] >= ops[i].at + validity
      {
        if i < n {
          SurvivesPrefix(ops, validity, i, q);
          assert pre[i] == ops[i];
        }
      }
      if q in c {
        LatestWitness(ops, validity, q);
      }
    }
  }

  lemma LatestWitness(ops: seq<Op>, validity: nat, q: Quote)
    requires ops != [] && Latest(ops[..|ops| - 1], validity, q) && q in Run(ops, validity)
    ensures exists i :: 0 <= i < |ops| && Survives(ops, validity, i, q) && ops[i].at + validity == Run(ops, validity)[q]
  {
    var n := |ops| - 1;
    var pre, c0, c := ops[..n], Run(ops[..n], validity), Run(ops, validity);
    if ops[n].Store? && ops[n].quote == q && c[q] == ops[n].at + validity {
      assert Survives(ops, validity, n, q);
    } else {
      assert q in c0 && c0[q] == c[q];
      var i :| 0 <= i < |pre| && Survives(pre, validity, i, q) && pre[i].at + validity == c0[q];
      assert pre[i] == ops[i];
      SurvivesPrefix(ops, validity, i, q);
    }
  }

  // For any clock readings: a quote is valid at `now` exactly when a store of it has not
  // expired by then and outlived every sweep since.
  lemma ValidIffSurviving(ops: seq<Op>, validity: nat, q: Quote, now: Time)
    ensures IsValid(Run(ops, validity), q, now) <==>
            exists i :: 0 <= i < |ops| && Survives(ops, validity, i, q) && ops[i].at + validity > now
  {
    CacheIsLatest(ops, validity, q);
    hide Survives;
  }

  ghost predicate StoredUnexpired(ops: seq<Op>, validity: nat, q: Quote, now: Time) {
    exists i :: 0 <= i < |ops| && ops[i].Store? && ops[i].quote == q && ops[i].at + validity > now
  }

  // When no sweep with a later reading took the lock before the check, a quote is valid exactly
  // when some store of it has not expired: garbage collection is unobservable.
  lemma ValidIffUnexpired(ops: seq<Op>, validity: nat, q: Quote, now: Time)
    requires forall j :: 0 <= j < |ops| && ops[j].Sweep? ==> ops[j].now <= now
    ensures IsValid(Run(ops, validity), q, now) <==> StoredUnexpired(ops, validity, q, now)
  {
    ValidIffSurviving(ops, validity, q, now);
    if StoredUnexpired(ops, validity, q, now) {
      var i :| 0 <= i < |ops| && ops[i].Store? && ops[i].quote == q && ops[i].at + validity > now;
      assert Survives(ops, validity, i, q);
    }
  }

  // -------- threads and the clock --------

  // A check or a sweep is two steps of its thread: reading the clock, and working under the
  // lock. Other threads may take any steps in between.
  datatype Step =
    | StoreStep(quote: Quote, at: Time)
    | ReadStep(thread: nat)
    | CheckStep(thread: nat, quote: Quote)
    | SweepStep(thread: nat)

  // The last step before i in which the thread read the clock.
  function ReadBefore(steps: seq<Step>, i: nat, thread: nat): Option<nat>
    requires i <= |steps|
  {
    if i == 0 then None
    else if steps[i - 1] == ReadStep(thread) then Some(i - 1)
    else ReadBefore(steps, i - 1, thread)
  }

  lemma {:induction false} ReadBeforeIsBefore(steps: seq<Step>, i: nat, thread: nat)
    requires i <= |steps|
    ensures match ReadBefore(steps, i, thread)
            case None => forall j :: 0 <= j < i ==> steps[j] != ReadStep(thread)
            case Some(r) => r < i && steps[r] == ReadStep(thread) && forall j :: r < j < i ==> steps[j] != ReadStep(thread)
  {
    if i > 0 && steps[i - 1] != ReadStep(thread) {
      ReadBeforeIsBefore(steps, i - 1, thread);
    }
  }

  // Step i happens when the clock shows clock[i], and the clock does not go back.
  ghost predicate Timed(steps: seq<Step>, clock: seq<Time>) {
    && |clock| == |steps|
    && (forall i, j :: 0 <= i <= j < |clock| ==> clock[i] <= clock[j])
    && (forall i :: 0 <= i < |steps| && (steps[i].CheckStep? || steps[i].SweepStep?) ==>
          ReadBefore(steps, i, steps[i].thread).Some?)
  }

  // When the check or sweep at step i read the clock.
  function ReadOf(steps: seq<Step>, clock: seq<Time>, i: nat): (r: nat)
    requires Timed(steps, clock) && i < |steps| && (steps[i].CheckStep? || steps[i].SweepStep?)
    ensures r < i
  {
    ReadBeforeIsBefore(steps, i, steps[i].thread);
    ReadBefore(steps, i, steps[i].thread).value
  }

  function ToOp(steps: seq<Step>, clock: seq<Time>, i: nat): Op
    requires Timed(steps, clock) && i < |steps|
  {
    match steps[i]
    case StoreStep(q, at) => Store(q, at)
    case ReadStep(_) => ReadClock
    case CheckStep(_, q) => Check(q, clock[ReadOf(steps, clock, i)])
    case SweepStep(_) => Sweep(clock[ReadOf(steps, clock, i)])
  }

  // What happened to the cache before step n.
  function OpsBefore(steps: seq<Step>, clock: seq<Time>, n: nat): (ops: seq<Op>)
    requires Timed(steps, clock) && n <= |steps|
    ensures |ops| == n
  {
    seq(n, i requires 0 <= i < n => ToOp(steps, clock, i))
  }

  // The answer of the check at step c.
  function Answer(steps: seq<Step>, clock: seq<Time>, validity: nat, c: nat): bool
    requires Timed(steps, clock) && c < |steps| && steps[c].CheckStep?
  {
    IsValid(Run(OpsBefore(steps, clock, c), validity), steps[c].quote, clock[ReadOf(steps, clock, c)])
  }

  // Step i stores the quote, and it has not expired when the check at step c reads the clock.
  predicate UnexpiredStore(steps: seq<Step>, clock: seq<Time>, validity: nat, c: nat, i: nat)
    requires Timed(steps, clock) && c < |steps| && steps[c].CheckStep?
  {
    && i < c && steps[i].StoreStep? && steps[i].quote == steps[c].quote
    && steps[i].at + validity > clock[ReadOf(steps, clock, c)]
  }

  // The sweep at step l removes what was stored at step i before the check at step c sees it,
  // although it read the clock after the check did.
  predicate Overtakes(steps: seq<Step>, clock: seq<Time>, validity: nat, c: nat, i: nat, l: nat)
    requires Timed(steps, clock) && c < |steps| && steps[c].CheckStep? && i < c && steps[i].StoreStep?
  {
    && i < l < c && steps[l].SweepStep?
    && ReadOf(steps, clock, l) > ReadOf(steps, clock, c)
    && steps[i].at + validity <= clock[ReadOf(steps, clock, l)]
  }

  // A check answers that the quote is valid exactly if some unexpired store of it was not
  // removed by a sweep that read the clock later and took the lock earlier. So it is never
  // wrongly positive, and wrongly negative exactly if every unexpired store was overtaken.
  lemma AnswerExact(steps: seq<Step>, clock: seq<Time>, validity: nat, c: nat)
    requires Timed(steps, clock) && c < |steps| && steps[c].CheckStep?
    ensures Answer(steps, clock, validity, c) <==>
            exists i: nat :: UnexpiredStore(steps, clock, validity, c, i)
                             && forall l: nat :: !Overtakes(steps, clock, validity, c, i, l)
  {
    var ops, q, now := OpsBefore(steps, clock, c), steps[c].quote, clock[ReadOf(steps, clock, c)];
    ValidIffSurviving(ops, validity, q, now);
    hide Run, OpsBefore;
    if Answer(steps, clock, validity, c) {
      var i: nat :| i < |ops| && Survives(ops, validity, i, q) && ops[i].at + validity > now;
      SurvivesIffNotOvertaken(steps, clock, validity, c, i);
      assert UnexpiredStore(steps, clock, validity, c, i);
    }
    if i: nat :| UnexpiredStore(steps, clock, validity, c, i)
                 && forall l: nat :: !Overtakes(steps, clock, validity, c, i, l) {
      SurvivesIffNotOvertaken(steps, clock, validity, c, i);
    }
  }

  lemma SurvivesIffNotOvertaken(steps: seq<Step>, clock: seq<Time>, validity: nat, c: nat, i: nat)
    requires Timed(steps, clock) && c < |steps| && steps[c].CheckStep? && i < c
    ensures OpsBefore(steps, clock, c)[i].Store? <==> steps[i].StoreStep?
    ensures steps[i].StoreStep? ==> OpsBefore(steps, clock, c)[i] == Store(steps[i].quote, steps[i].at)
    ensures UnexpiredStore(steps, clock, validity, c, i) ==>
              (Survives(OpsBefore(steps, clock, c), validity, i, steps[c].quote)
               <==> forall l: nat :: !Overtakes(steps, clock, validity, c, i, l))
  {
    var ops := OpsBefore(steps, clock, c);
    assert ops[i] == ToOp(steps, clock, i);
    if UnexpiredStore(steps, clock, validity, c, i) {
      forall l: nat | i < l < c && steps[l].SweepStep?
        ensures ops[l] == Sweep(clock[ReadOf(steps, clock, l)])
        ensures Overtakes(steps, clock, validity, c, i, l) <==> !(ops[i].at + validity > ops[l].now)
      {
        var r, s := ReadOf(steps, clock, c), ReadOf(steps, clock, l);
        assert ops[l] == ToOp(steps, clock, l);
        assert s <= r ==> clock[s] <= clock[r];
      }
      forall l: nat | i < l < c && ops[l].Sweep?
        ensures steps[l].SweepStep?
      {
        assert ops[l] == ToOp(steps, clock, l);
      }
    }
  }

  // In particular no sweep is observed if none reads the clock between a check's reading and
  // its lock.
  lemma UnobservedWithoutLaterReading(steps: seq<Step>, clock: seq<Time>, validity: nat, c: nat)
    requires Timed(steps, clock) && c < |steps| && steps[c].CheckStep?
    requires forall l :: 0 <= l < c && steps[l].SweepStep? ==> ReadOf(steps, clock, l) <= ReadOf(steps, clock, c)
    ensures Answer(steps, clock, validity, c) <==> exists i: nat :: UnexpiredStore(steps, clock, validity, c, i)
  {
    AnswerExact(steps, clock, validity, c);
  }

  // The clock does not go back, the quote is valid until 10, the check reads 5, and yet it
  // answers that the quote is invalid.
  lemma SweepOvertakesCheck()
    ensures var steps := [StoreStep(0, 0), ReadStep(1), ReadStep(2), SweepStep(2), CheckStep(1, 0)];
            var clock := [0, 5, 20, 20, 20];
            && Timed(steps, clock)
            && UnexpiredStore(steps, clock, 10, 4, 0) && !Answer(steps, clock, 10, 4)
  {
    var steps := [StoreStep(0, 0), ReadStep(1), ReadStep(2), SweepStep(2), CheckStep(1, 0)];
    var clock := [0, 5, 20, 20, 20];
    assert ReadBefore(steps, 3, 2) == Some(2);
    assert ReadBefore(steps, 2, 1) == Some(1);
    assert ReadBefore(steps, 3, 1) == Some(1);
    assert ReadBefore(steps, 4, 1) == Some(1);
    assert ReadOf(steps, clock, 4) == 1 && ReadOf(steps, clock, 3) == 2;
    AnswerExact(steps, clock, 10, 4);
    forall i: nat | UnexpiredStore(steps, clock, 10, 4, i)
      ensures Overtakes(steps, clock, 10, 4, i, 3)
    {
      assert i == 0;
    }
  }
}
