/** The words that the constraint code reads are the words that the verifier has checked. */
module Loading {
  import opened Yul
  import opened Evaluation
  import opened Quotient
  import opened Layout
  import opened Openings

  lemma {:induction false} CollectedFrom<K>(keys: seq<K>, values: seq<Ptr>)
    requires |keys| == |values|
    ensures forall k :: k in Collect(keys, values) ==> Collect(keys, values)[k] in values
  {
    if keys != [] {
      var n := |keys| - 1;
      CollectedFrom(keys[..n], values[..n]);
      assert values == values[..n] + [values[n]];
    }
  }

  // A pointer to one of the evaluation words, all of which the verifier compares with r.
  ghost predicate IsEvalWord(p: Ptr, meta: Meta, evalCptr: Ptr)
    requires evalCptr.value.Integer?
  {
    exists i :: 0 <= i < meta.numEvals && p == Plus(evalCptr, i)
  }

  lemma EvalWordAt(meta: Meta, evalCptr: Ptr, start: Ptr, offset: nat, i: nat)
    requires evalCptr.value.Integer? && start == Plus(evalCptr, offset) && offset + i < meta.numEvals
    ensures IsEvalWord(Plus(start, i), meta, evalCptr)
  {
    assert Plus(start, i) == Plus(evalCptr, offset + i);
  }

  lemma CollectedEvalWord<K>(keys: seq<K>, k: K, meta: Meta, evalCptr: Ptr, start: Ptr, offset: nat)
    requires evalCptr.value.Integer? && start == Plus(evalCptr, offset) && offset + |keys| <= meta.numEvals
    requires k in Collect(keys, WordRange(start, |keys|))
    ensures IsEvalWord(Collect(keys, WordRange(start, |keys|))[k], meta, evalCptr)
  {
    var values := WordRange(start, |keys|);
    CollectedFrom(keys, values);
    var p := Collect(keys, values)[k];
    assert p in values;
    var i :| 0 <= i < |values| && values[i] == p;
    EvalWordAt(meta, evalCptr, start, offset, i);
  }

  lemma GroupOffsets(meta: Meta, evalCptr: Ptr)
    requires evalCptr.value.Integer?
    ensures var e := NewEvalPtrs(meta, evalCptr);
            var a, f, c := |meta.adviceQueries|, |meta.fixedQueries|, |meta.permutationColumns|;
            && e.advice == Plus(evalCptr, 0) && e.fixed == Plus(evalCptr, a) && e.permutation == Plus(evalCptr, a + f + 1)
            && e.z == Plus(evalCptr, a + f + 1 + c)
            && e.lookup == Plus(evalCptr, a + f + 1 + c + 3 * meta.numPermutationZs - 1)
  {
  }

  // The queried columns and the permutation columns.
  lemma QueryWords(meta: Meta, data: Data, challengeMptr: Ptr)
    requires WellPlaced(meta, data, challengeMptr)
    ensures forall q :: q in data.places.places.advice ==> IsEvalWord(data.places.places.advice[q], meta, data.evalCptr)
    ensures forall q :: q in data.places.places.fixed ==> IsEvalWord(data.places.places.fixed[q], meta, data.evalCptr)
    ensures forall c :: c in data.places.permutation ==> IsEvalWord(data.places.permutation[c], meta, data.evalCptr)
  {
    var e := NewEvalPtrs(meta, data.evalCptr);
    var a, f := |meta.adviceQueries|, |meta.fixedQueries|;
    GroupOffsets(meta, data.evalCptr);
    hide NoDuplicates, Collect, WordRange, IsEvalWord;
    forall q | q in data.places.places.advice
      ensures IsEvalWord(data.places.places.advice[q], meta, data.evalCptr)
    {
      CollectedEvalWord(meta.adviceQueries, q, meta, data.evalCptr, e.advice, 0);
    }
    forall q | q in data.places.places.fixed
      ensures IsEvalWord(data.places.places.fixed[q], meta, data.evalCptr)
    {
      CollectedEvalWord(meta.fixedQueries, q, meta, data.evalCptr, e.fixed, a);
    }
    forall c | c in data.places.permutation
      ensures IsEvalWord(data.places.permutation[c], meta, data.evalCptr)
    {
      CollectedEvalWord(meta.permutationColumns, c, meta, data.evalCptr, e.permutation, a + f + 1);
    }
  }

  // The grand products. The third word of the last one lies outside of its group and is not
  // among those that the constraint code reads.
  lemma ArgumentWords(meta: Meta, data: Data, challengeMptr: Ptr)
    requires WellPlaced(meta, data, challengeMptr)
    ensures forall i :: 0 <= i < |data.places.permutationZs| ==>
              var z := data.places.permutationZs[i];
              IsEvalWord(z.cur, meta, data.evalCptr) && IsEvalWord(z.next, meta, data.evalCptr)
    ensures forall i :: 0 <= i < |data.places.permutationZs| - 1 ==>
              IsEvalWord(data.places.permutationZs[i].last, meta, data.evalCptr)
    ensures forall i :: 0 <= i < |data.places.lookups| ==>
              var v := data.places.lookups[i];
              && IsEvalWord(v.z, meta, data.evalCptr) && IsEvalWord(v.zNext, meta, data.evalCptr)
              && IsEvalWord(v.pInput, meta, data.evalCptr) && IsEvalWord(v.pInputPrev, meta, data.evalCptr)
              && IsEvalWord(v.pTable, meta, data.evalCptr)
  {
    var e, n, l := NewEvalPtrs(meta, data.evalCptr), meta.numPermutationZs, meta.numLookupZs;
    var z := |meta.adviceQueries| + |meta.fixedQueries| + 1 + |meta.permutationColumns|;
    GroupOffsets(meta, data.evalCptr);
    hide NoDuplicates, Collect, WordRange, IsEvalWord;
    assert data.places.permutationZs == ZPlaces(e.z, n) && data.places.lookups == LookupPlaces(e.lookup, l);
    hide WellPlaced;
    forall i | 0 <= i < n
      ensures IsEvalWord(Plus(e.z, 3 * i), meta, data.evalCptr) && IsEvalWord(Plus(e.z, 3 * i + 1), meta, data.evalCptr)
    {
      EvalWordAt(meta, data.evalCptr, e.z, z, 3 * i);
      EvalWordAt(meta, data.evalCptr, e.z, z, 3 * i + 1);
    }
    forall i | 0 <= i < n - 1
      ensures IsEvalWord(Plus(e.z, 3 * i + 2), meta, data.evalCptr)
    {
      EvalWordAt(meta, data.evalCptr, e.z, z, 3 * i + 2);
    }
    forall i | 0 <= i < l
      ensures IsEvalWord(Plus(e.lookup, 5 * i), meta, data.evalCptr)
      ensures IsEvalWord(Plus(e.lookup, 5 * i + 1), meta, data.evalCptr)
      ensures IsEvalWord(Plus(e.lookup, 5 * i + 2), meta, data.evalCptr)
      ensures IsEvalWord(Plus(e.lookup, 5 * i + 3), meta, data.evalCptr)
      ensures IsEvalWord(Plus(e.lookup, 5 * i + 4), meta, data.evalCptr)
    {
      EvalWordAt(meta, data.evalCptr, e.lookup, z + 3 * n - 1, 5 * i);
      EvalWordAt(meta, data.evalCptr, e.lookup, z + 3 * n - 1, 5 * i + 1);
      EvalWordAt(meta, data.evalCptr, e.lookup, z + 3 * n - 1, 5 * i + 2);
      EvalWordAt(meta, data.evalCptr, e.lookup, z + 3 * n - 1, 5 * i + 3);
      EvalWordAt(meta, data.evalCptr, e.lookup, z + 3 * n - 1, 5 * i + 4);
    }
  }

  // The values that a memory presents to expressions.
  function EnvOf(places: Places, mem: map<Ptr, int>): Env {
    Env(map q | q in places.fixed :: At(mem, places.fixed[q]), map q | q in places.advice :: At(mem, places.advice[q]),
        At(mem, places.instance_),
        seq(|places.challenges|, i requires 0 <= i < |places.challenges| => At(mem, places.challenges[i])))
  }

  // A memory with the evaluation words of the proof, the named words and the challenges is
  // all that the constraint code needs.
  lemma LayoutIsLoaded(cs: ConstraintSystem, vk: VerifyingKey, vkMptr: Ptr, proofCptr: Ptr, meta: Meta, data: Data,
                       mem: map<Ptr, int>)
    requires Generated(cs, vk, vkMptr, proofCptr, meta, data)
    requires SCRATCH !in mem && NamesLoaded(mem) && Named(INSTANCE_EVAL_MPTR) in mem
    requires forall p :: data.evalCptr.value.Integer? && IsEvalWord(p, meta, data.evalCptr) ==> p in mem
    requires forall i :: 0 <= i < |data.places.places.challenges| ==> data.places.places.challenges[i] in mem
    ensures Loaded(data.places, mem, EnvOf(data.places.places, mem))
  {
    hide Generated, IsEvalWord;
    GeneratedWellPlaced(cs, vk, vkMptr, proofCptr, meta, data);
    QueryWords(meta, data, ChallengePtr(vk, vkMptr));
    ArgumentWords(meta, data, ChallengePtr(vk, vkMptr));
    hide NoDuplicates, NewEvalPtrs;
    assert data.places.places.instance_ == Named(INSTANCE_EVAL_MPTR);
    hide WellPlaced;
    assert Presents(mem, data.places.places, EnvOf(data.places.places, mem));
  }

  // No evaluation or challenge is at the scratch word, provided that the verifying key is
  // not placed at the start of memory.
  lemma ScratchIsFree(cs: ConstraintSystem, vk: VerifyingKey, vkMptr: Ptr, proofCptr: Ptr, meta: Meta, data: Data)
    requires Generated(cs, vk, vkMptr, proofCptr, meta, data)
    requires vkMptr.loc == Memory && vkMptr.value.n > 0 && proofCptr.loc == Calldata
    ensures data.evalCptr.value.Integer? && !IsEvalWord(SCRATCH, meta, data.evalCptr)
    ensures SCRATCH !in data.places.places.challenges
  {
    GeneratedWellPlaced(cs, vk, vkMptr, proofCptr, meta, data);
    hide NoDuplicates, NewEvalPtrs, Collect, WordRange, RotationList;
  }
}
