# Shielder, modelled and proved in Dafny

This project models the parts of the Shielder repository whose correctness is hardest to see
from their source, and proves what they promise for every input, every run or every reachable
state. `dafny verify dfyconfig.toml` checks all of it.

The parts, each in the form of its source (pure code as functions, mutating code as classes,
arrays and loops with methods proved against a specification):

- **The Halo2-to-Yul compiler.** PLONK expressions are compiled into straight-line Yul with a
  cache of right-hand sides; permutation and lookup arguments add their own blocks; a Horner
  fold in `y` joins everything. Emitted code is a datatype with two semantics, 256-bit words
  and exact integers, and a simulation between them. The layout of a proof in calldata is
  computed as the generator does. Files: `Common`, `Words`, `Yul`, `Evaluation`, `Horner`,
  `Constraints` (the emitted blocks), `Quotient` (what they should compute), `Blocks`,
  `LookupBlocks`, `Verifier`, `Remapping`, `Layout`, `Openings`, `Commitments`,
  `ProofOrder`, `Loading`, `GeneratedVerifier` (all of it together).
- **The Poseidon2 program for eight elements**, as in-place methods on an array of words, with
  bare `add` where a word has room. Files: `Poseidon`, `PoseidonTables`.
- **The relayer**: the worker pool with its dry-run switch as a step machine over all
  interleavings, and the quote cache with its garbage collector. Files: `Taskmaster`,
  `QuoteCache`.
- **Accounts**: the Rust account, the TypeScript account state, and recovery of an account from
  the chain. Files: `Account`, `LocalState`, `Recovery`.
- **The anonymity revoker**: indexing, key collection and revocation, each stoppable at any
  write, in any mixture. Files: `Indexer`, `Restart`, `ViewingKeys`, `Revoker`.
- **Fees and Merkle paths**. Files: `ProtocolFee`, `MerklePath`.

Where the code does less than one might expect, the model follows the code and the exact
condition is proved:

- Recovery looks neither at whom a transaction calls nor at who emitted an event. It finds an
  action if and only if the action was a direct call, the first event of its kind in the logs
  is the contract's own, and every earlier call in the block has an event and names another
  nullifier (`Recovery.SpentOutcome`, `Recovery.RecoveryEqualsHistory`). Otherwise it stops
  with an error, or silently cuts the history, or registers an action that the account did not
  perform (`Recovery.RecoveryDiverges`, with inputs in `Recovery.ForeignCallIsBelieved`,
  `Recovery.WrappedCallIsMissed` and `Recovery.ForeignEventIsBelieved`).
- A check of a quote reads the clock before it waits for the lock, so a sweep that read the
  clock later can overtake it; exactly then a valid quote is rejected
  (`QuoteCache.AnswerExact`, with an input in `QuoteCache.SweepOvertakesCheck`).
- A block that the provider does not return is skipped for good when viewing keys are
  collected (`ViewingKeys.ScanAdds`, `ViewingKeys.FirstScanExactIff`).
- A block is certain to be indexed exactly only below the checkpoint. The checkpoint block is
  indexed again by the next run, so if a transaction emits two events, a run that stops between
  them leaves the row of the first one; the next complete run repairs it
  (`Revoker.CheckpointExactIff`).
- Indexing the checkpoint block again also removes its labels (`Revoker.LabelSurvivesIff`).
- The SDK overwrites the balance on a NewAccount event, the Rust account adds to it
  (`LocalState.StepAgrees`); a run ends in agreement if and only if every such event finds an
  empty account (`LocalState.RunAgreesIff`).
- The fee computed from a net amount can be below the one computed from the gross amount
  (`ProtocolFee.GrossThenNet`).
- The compiled value of an expression is r, which is not reduced, if and only if the expression
  is an odd number of negations around a zero (`Evaluation.CompilerCorrect`,
  `Evaluation.UnreducedIsOdd`); nothing downstream depends on its being reduced.

Hashing, key derivation and decryption are function parameters; where a theorem needs
injectivity it says so. RPC answers are a given chain, tables are maps, clock readings and
heights are parameters.

## Model

| member | source | states |
|---|---|---|
| `Yul.Simulation` | crates/halo2-verifier/src/lib/codegen/evaluator.rs:54-223 | For every emitted program (blocks included) and every pair of states holding representatives in [0, r] of the same exact values, the 256-bit run is stuck exactly when the run over exact integers is, and ends in a state of representatives; `sub(r, v)` never underflows although it may give r itself |
| `Yul.ExecExtends` | crates/halo2-verifier/src/lib/codegen.rs:237-254 | A program that runs on some memory runs in the same way on any memory that has more words set: words that are not read cannot matter, whatever they hold |
| `Evaluation.CompilerCorrect` | crates/halo2-verifier/src/lib/codegen/evaluator.rs:238-314 | For every selector-free expression and every state whose loaded words are < r, the emitted lines run on the EVM, keep memory, and leave in the returned name a value of [0, r] that equals the field value of the expression modulo r, despite sharing through the cache; it is r, hence not reduced, if and only if the expression is an unreduced zero |
| `Evaluation.WordValueExact` | crates/halo2-verifier/src/lib/codegen/evaluator.rs:244-294 | The word that the EVM operations compute is the field value itself, or r for an unreduced zero |
| `Evaluation.UnreducedIsOdd` | crates/halo2-verifier/src/lib/codegen/evaluator.rs:244-294 | An unreduced zero is an odd number of negations around an expression that is not a negation and whose value is zero; an even number gives zero again |
| `Evaluation.FieldValueIsIntValue` | crates/halo2-verifier/src/lib/codegen/evaluator.rs:341-370 | The field value of an expression is the residue of the same polynomial over the integers |
| `Evaluation.CompileSingleAssignment` | crates/halo2-verifier/src/lib/codegen/evaluator.rs:244-338 | Compiling into a scope that already holds lines keeps it in single-assignment form: every line declares a new name for a right-hand side not emitted before, over names declared before it, and the cache is exactly the emitted lines |
| `Evaluation.CompileAllSingleAssignment` | crates/halo2-verifier/src/lib/codegen/evaluator.rs:126-147 | The same for all inputs, or all tables, of a lookup, which share one scope; every returned name is declared |
| `Evaluation.RunCompiled` | crates/halo2-verifier/src/lib/codegen/evaluator.rs:244-294 | Under either semantics, from any scope whose cache is correct, the lines leave the value of the expression in the returned name and the cache correct again |
| `Evaluation.RunCompiledAll` | crates/halo2-verifier/src/lib/codegen/evaluator.rs:126-147 | A list of expressions compiled in one scope leaves each value in its own returned name |
| `Evaluation.NegatedZeroIsNotReduced` | crates/halo2-verifier/src/lib/codegen/evaluator.rs:244-294 | The smallest expression for which the compiled code leaves r |
| `Evaluation.Evaluator.Reset` | crates/halo2-verifier/src/lib/codegen/evaluator.rs:233-236 | Counter and cache become empty |
| `Evaluation.Evaluator.NextVar` | crates/halo2-verifier/src/lib/codegen/evaluator.rs:309-313 | A temporary with the current count; only the counter moves |
| `Evaluation.Evaluator.InitVar` | crates/halo2-verifier/src/lib/codegen/evaluator.rs:296-307 | A cached right-hand side gives its name and no line, a new one gives one line under the given or the next name and enters the cache |
| `Evaluation.Evaluator.Evaluate` | crates/halo2-verifier/src/lib/codegen/evaluator.rs:244-294 | The mutating evaluator emits exactly the code of the functional compiler and leaves its counter and cache |
| `Evaluation.Evaluator.EvaluateAndReset` | crates/halo2-verifier/src/lib/codegen/evaluator.rs:238-242 | One gate polynomial compiled in a scope of its own, which is then reset |
| `Evaluation.Evaluator.EvaluateAllAndReset` | crates/halo2-verifier/src/lib/codegen/evaluator.rs:131-146 | The inputs or tables of one lookup compiled in one scope, which is then reset |
| `Evaluation.Evaluator.GateComputations` | crates/halo2-verifier/src/lib/codegen/evaluator.rs:45-52 | One snippet for every gate polynomial, in order |
| `Blocks.RunLhsLines` | crates/halo2-verifier/src/lib/codegen/evaluator.rs:91-98 | The left lines of a chunk multiply lhs by the product of p + beta s + gamma over its columns, where p is the evaluation of the advice, fixed or instance column itself |
| `Blocks.RunRhsLines` | crates/halo2-verifier/src/lib/codegen/evaluator.rs:101-109 | The right lines multiply rhs by the product of p + beta x delta^j + gamma over the columns with global indices j, and leave the next power in word 0x00 unless the very last column is done |
| `Blocks.RunChunk` | crates/halo2-verifier/src/lib/codegen/evaluator.rs:77-121 | One chunk, with the first one seeding word 0x00, yields (1 - (l_last + l_blind)) (z(wx) left product - z(x) right product) |
| `Blocks.ChainChunks` | crates/halo2-verifier/src/lib/codegen/evaluator.rs:77-121 | For any number of columns and any chunk length, the chunks one after the other yield their values, with the power of delta carried in word 0x00 from chunk to chunk |
| `Blocks.ChainPermutation` | crates/halo2-verifier/src/lib/codegen/evaluator.rs:54-124 | All blocks of the permutation argument yield its constraints in order and change no word but 0x00 |
| `Verifier.ChunkValueAt` | crates/halo2-verifier/src/lib/codegen/evaluator.rs:77-87 | Chunk i covers the columns from global index i * chunk length on, with the matching powers of delta |
| `LookupBlocks.RunCompressBlock` | crates/halo2-verifier/src/lib/codegen/evaluator.rs:168-182 | The compression block of a lookup leaves the Horner sum in theta of its expressions and hides its own names |
| `LookupBlocks.ChainLookup` | crates/halo2-verifier/src/lib/codegen/evaluator.rs:126-223 | The five blocks of a lookup yield its five constraints |
| `LookupBlocks.ChainConstraints` | crates/halo2-verifier/src/lib/codegen.rs:237-241 | The blocks of all gates, of the permutation argument and of all lookups, in the order of emission, yield all constraints |
| `Quotient.RunFoldBlocks` | crates/halo2-verifier/src/lib/codegen.rs:242-254 | The fold of any blocks computes the Horner fold of their values in y, each block hiding its names from the next |
| `Horner.FoldIsPowerSum` | crates/halo2-verifier/src/lib/codegen.rs:242-254 | The Horner fold is the sum of the values, each times its power of y |
| `Verifier.QuotientProgramFits` | crates/halo2-verifier/src/lib/codegen.rs:237-254 | Every literal in the emitted program is a field element |
| `Verifier.QuotientCorrect` | crates/halo2-verifier/src/lib/codegen.rs:237-254 | For every circuit and every state of field elements, the emitted program runs on the EVM and leaves quotient_eval_numer in [0, r], congruent modulo r to the sum over all gate, permutation and lookup constraints weighted with powers of y |
| `GeneratedVerifier.LayoutFitsCircuit` | crates/halo2-verifier/src/lib/codegen/util.rs:226-307 | The layout has a place for every query, column, grand product and lookup that the code of the circuit refers to |
| `GeneratedVerifier.GeneratedQuotient` | crates/halo2-verifier/src/lib/codegen.rs:228-254 | End to end: for every constraint system and circuit, with the layout that the generator computes and any memory whose read words are < r, the emitted program leaves the weighted sum of all constraints modulo r |
| `Remapping.Remap` | crates/halo2-verifier/src/lib/codegen/util.rs:73-94 | The folds of the remapping compute, for any phases below num_phase, the count of every phase and the position of every entry |
| `Remapping.PositionOrder` | crates/halo2-verifier/src/lib/codegen/util.rs:73-94 | Positions order by phase first and by original index second |
| `Remapping.PositionsArePermutation` | crates/halo2-verifier/src/lib/codegen/util.rs:73-94 | The positions are a permutation of 0 .. n - 1 |
| `Remapping.CountsSum` | crates/halo2-verifier/src/lib/codegen/util.rs:73-94 | The counts of all phases sum to n |
| `Openings.EveryWordOpenedOnce` | crates/halo2-verifier/src/lib/codegen/pcs.rs:60-104 | The evaluations in the queries are, as a multiset, exactly the num_evals consecutive words from the evaluation start, each once, plus the computed quotient evaluation; hence the overlapping third word of the last permutation polynomial is never opened in that role |
| `Openings.ProofExtent` | crates/halo2-verifier/src/lib/codegen/util.rs:175-187 | The evaluation words end at the start of the opening proof, and proof_len is that offset plus the opening part, for both schemes |
| `Openings.RotationsCounted` | crates/halo2-verifier/src/lib/codegen/util.rs:97-112 | num_rotations is the number of distinct rotations in the queries |
| `Openings.DataCovers` | crates/halo2-verifier/src/lib/codegen/util.rs:226-307 | Every query and permutation column has its commitment and its word |
| `Openings.ZWords` | crates/halo2-verifier/src/lib/codegen/util.rs:300-303 | The openings of the permutation polynomials are 3 n - 1 consecutive words, each once |
| `Openings.LookupWords` | crates/halo2-verifier/src/lib/codegen/util.rs:304-307 | The openings of the lookups are 5 n consecutive words, each once |
| `Layout.CollectAt` | crates/halo2-verifier/src/lib/codegen/util.rs:284-299 | With duplicate-free keys, key i is mapped to word i |
| `Commitments.CommitmentsInOrder` | crates/halo2-verifier/src/lib/codegen/util.rs:231-271 | The advice commitments are exactly the first points of the proof, ordered by phase and then by column; the permuted lookups, products, random commitment, quotients and evaluations follow in this order without gap |
| `ProofOrder.CoordinatesFillProof` | crates/halo2-verifier/src/lib/codegen/util.rs:226-271 | Word by word: the x and y coordinates of all commitments before the quotients, in the order of the proof, are the consecutive words from the start of the proof, and the evaluations follow degree - 1 quotients |
| `ProofOrder.KeyCoordinates` | crates/halo2-verifier/src/lib/codegen/util.rs:226-254 | The coordinates of the fixed and of the permutation commitments are the consecutive words behind the constants of the key; the computed quotient commitment has its two named words |
| `ProofOrder.EvaluationsInOrder` | crates/halo2-verifier/src/lib/codegen/util.rs:238-307 | The evaluations in the order of the proof (queried advice, queried fixed, random, permutation columns, products, lookups) are the consecutive words behind the quotients, each once |
| `ProofOrder.ChallengesInOrder` | crates/halo2-verifier/src/lib/codegen/util.rs:228-282 | The user challenges are exactly the words behind the commitments of the key, ordered by phase and then by index, and theta follows |
| `ProofOrder.SizesExact` | crates/halo2-verifier/src/lib/codegen/util.rs:43-69 | There is one grand product for every degree - 2 columns, rounded up, and all other sizes follow from the constraint system as stated |
| `ProofOrder.ReadingOrder` | crates/halo2-verifier/src/lib/codegen/util.rs:133-143 | num_advices lists, in the order of the proof, the advice columns of every phase, the permuted lookups if any, the products with the random commitment, and the degree - 1 quotients |
| `ProofOrder.ProofLength` | crates/halo2-verifier/src/lib/codegen/util.rs:175-187 | proof_len is the distance from the proof to the opening part plus two points for Bdfg21, or one point for every distinct rotation of the queries for Gwc19 |
| `Commitments.WordsOpenedInRole` | crates/halo2-verifier/src/lib/codegen/pcs.rs:60-104 | Every word that the constraint code reads, and the random and quotient evaluations, are opened against the commitment of the column or argument they stand for, at the rotation at which the constraints use them, and against nothing else |
| `Commitments.PermutationWordsInRole` | crates/halo2-verifier/src/lib/codegen/evaluator.rs:225-231 | The word that the permutation code reads for an advice or fixed column is opened against that column's commitment at the current row, and against nothing else |
| `Commitments.OneOpeningPerWord` | crates/halo2-verifier/src/lib/codegen/pcs.rs:60-104 | No word is opened twice |
| `Commitments.OpeningsAreDistinct` | crates/halo2-verifier/src/lib/codegen/pcs.rs:60-104 | No commitment is opened twice at the same rotation |
| `Loading.QueryWords` | crates/halo2-verifier/src/lib/codegen/util.rs:284-299 | Every queried evaluation and every permutation evaluation is one of the words that the verifier compares with r |
| `Loading.ArgumentWords` | crates/halo2-verifier/src/lib/codegen/util.rs:300-307 | So are the words of grand products and lookups that the constraint code reads, which excludes the third word of the last permutation polynomial |
| `Loading.LayoutIsLoaded` | crates/halo2-verifier/src/lib/codegen/util.rs:220-307 | A memory with the evaluation words, the challenges and the named words holds everything that the constraint code reads |
| `Loading.ScratchIsFree` | crates/halo2-verifier/src/lib/codegen.rs:229-234 | No evaluation or challenge lies at word 0x00, which the permutation code overwrites |
| `Poseidon.LazyAdd` | poseidon2-solidity/utils.py:34-40 | A bare add is the exact sum; its precondition, discharged at every use, says that the word does not wrap |
| `Poseidon.Sum` | poseidon2-solidity/generate_t8.py:477-479 | The swap word becomes the reduced sum of the eight state words, five of them added without reduction; nothing else changes |
| `Poseidon.Mm4` | poseidon2-solidity/generate_t8.py:481-497 | In place, the four slots become their product with the 4 by 4 matrix; nothing else changes |
| `Poseidon.AddHalves` | poseidon2-solidity/generate_t8.py:503-515 | Every slot becomes itself plus the unreduced sum of the two halves |
| `Poseidon.FrMm` | poseidon2-solidity/generate_t8.py:499-516 | In place, the state becomes the external matrix M times the state, every slot reduced |
| `Poseidon.MixedHalves` | poseidon2-solidity/generate_t8.py:461-468 | The two passes of fr_mm compose to all eight rows of M |
| `Poseidon.Pow7IsSBox` | poseidon2-solidity/utils.py:93-101 | Two squarings and two multiplications are x^7 |
| `Poseidon.FrIntro` | poseidon2-solidity/generate_t8.py:518-542 | Every slot becomes the S-box of itself plus its constant, added without reduction |
| `Poseidon.FullRound` | poseidon2-solidity/generate_t8.py:563-569 | A full round of the program is a full round of the permutation, on reduced slots |
| `Poseidon.SumAndDiagonal` | poseidon2-solidity/generate_t8.py:578-586 | In place, the state becomes D_i x_i plus the sum of all |
| `Poseidon.PartialRound` | poseidon2-solidity/generate_t8.py:572-588 | A partial round of the program, which adds one constant, is a partial round of the permutation, which adds eight |
| `Poseidon.Init` | poseidon2-solidity/generate_t8.py:546-560 | The copy from argument slots to overlapping state slots, from low to high, gives the seven inputs and the capacity, then the external matrix |
| `Poseidon.FullRounds` | poseidon2-solidity/utils.py:134-139 | Consecutive full rounds are those of the permutation, with slots reduced at every round boundary |
| `Poseidon.PartialRounds` | poseidon2-solidity/utils.py:136-137 | Consecutive partial rounds are those of the permutation, with slots reduced at every round boundary |
| `Poseidon.Hash` | poseidon2-solidity/utils.py:125-144 | For all seven inputs < F, the program of 4 full, 48 partial and 4 full rounds returns slot 0 of the plain permutation, with each constant used once and in order |
| `PoseidonTables.CapacityIsLength` | poseidon2-solidity/generate_t8.py:557-557 | The last element of the initial state is seven, the number of arguments, times 2^64 |
| `PoseidonTables.TablesAreValid` | poseidon2-solidity/generate_t8.py:3-459 | The tables of the program meet what the proofs need: 448 reduced round constants, zero off the first element in partial rounds, and a reduced diagonal |
| `PoseidonTables.HashTuple` | poseidon2-solidity/generate_t8.py:596-597 | With these tables, and no condition but inputs < F, the program returns slot 0 of the permutation |
| `Taskmaster.OptionalDryRun.NoticeRelaySuccess` | crates/shielder-relayer/src/relay/monitoring.rs:41-45 | The counter stays the number of noticed successes since the last noticed failure, modulo 2^32 |
| `Taskmaster.OptionalDryRun.NoticeRelayFailure` | crates/shielder-relayer/src/relay/monitoring.rs:46-50 | The counter restarts, as the log demands |
| `Taskmaster.OptionalDryRun.ShouldDryRunNow` | crates/shielder-relayer/src/relay/monitoring.rs:52-56 | A dry run is ordered exactly below 32 |
| `Taskmaster.StepKeeps` | crates/shielder-relayer/src/relay/taskmaster.rs:113-190 | Every step of every worker and of the endpoint keeps the invariant of the pool |
| `Taskmaster.TaskConservation` | crates/shielder-relayer/src/relay/taskmaster.rs:91-187 | Over all interleavings of any number of workers: a registered task is in exactly one of the queue, one worker's hands, or one report; the switch is read for it at most once; it is submitted at most once, never if its dry run failed, exactly once if reported as relayed; its relay is noticed at most once and only then |
| `Taskmaster.FirstInFirstOut` | crates/shielder-relayer/src/relay/taskmaster.rs:104-120 | The queue is always the end of the sequence of registrations, and holds at most 1024 tasks |
| `Taskmaster.ReportsAreTrue` | crates/shielder-relayer/src/relay/taskmaster.rs:125-179 | In both modes: a submission is preceded by a switch reading for that task and, if it ordered a dry run, by that dry run's later success; a dry run happens only if ordered; every report and every notice is preceded by the event it tells of; with obligatory dry runs every submission follows a successful one |
| `Taskmaster.DryRunGate` | crates/shielder-relayer/src/relay/monitoring.rs:33-56 | In optimistic mode a switch read orders a dry run exactly when the notices since the last failure (from 32 if none) are below 32 modulo 2^32; in particular until 32 successes were noticed after a failure |
| `Taskmaster.Progress` | crates/shielder-relayer/src/relay/taskmaster.rs:120-187 | With a worker in the pool, as long as work is left some step other than a registration can be taken |
| `Taskmaster.WorkBounded` | crates/shielder-relayer/src/relay/taskmaster.rs:113-190 | In every run the workers take at most seven steps for every registered task |
| `Taskmaster.AllReported` | crates/shielder-relayer/src/relay/taskmaster.rs:91-187 | Hence the pool drains: when only registrations are possible, every registered task has been reported exactly once |
| `QuoteCache.Cache.StoreQuoteResponse` | crates/shielder-relayer/src/quote_cache.rs:39-51 | The stored expiration is the larger of the old and the new one |
| `QuoteCache.Cache.IsQuoteValid` | crates/shielder-relayer/src/quote_cache.rs:53-60 | True exactly for a quote that is present and expires later |
| `QuoteCache.Cache.CollectGarbage` | crates/shielder-relayer/src/quote_cache.rs:62-66 | Exactly the unexpired quotes are kept |
| `QuoteCache.CacheIsLatest` | crates/shielder-relayer/src/quote_cache.rs:39-66 | After any interleaving the cache holds, for every quote, the latest expiration among its stores that outlived every later sweep |
| `QuoteCache.ValidIffSurviving` | crates/shielder-relayer/src/quote_cache.rs:53-66 | For any clock readings: valid exactly when some unexpired store outlived every sweep since |
| `QuoteCache.ValidIffUnexpired` | crates/shielder-relayer/src/quote_cache.rs:53-66 | If no sweep with a later reading took the lock before the check: valid exactly when some store has not expired |
| `QuoteCache.AnswerExact` | crates/shielder-relayer/src/quote_cache.rs:53-66 | With the clock read before the lock is taken, over a clock that does not go back: a check answers valid exactly if some store unexpired at its reading was not removed by a sweep that read the clock later and took the lock earlier |
| `QuoteCache.UnobservedWithoutLaterReading` | crates/shielder-relayer/src/quote_cache.rs:53-66 | Garbage collection cannot be observed by a check if no sweep reads the clock between the check's reading and its lock |
| `QuoteCache.SweepOvertakesCheck` | crates/shielder-relayer/src/quote_cache.rs:53-66 | A check that waits for the lock behind a sweep that read the clock later rejects a quote that is still valid, although the clock never goes back |
| `Account.ShielderAccount.RegisterAction` | crates/shielder-account/src/lib.rs:63-84 | Nonce, amount and history move together, or the original panics and nothing moves |
| `Account.RegisterAllKeeps` | crates/shielder-account/src/lib.rs:63-93 | Whenever a history registers, the nonce counts it, the leaf index is that of its last action and it is kept in full |
| `Account.RegisterExact` | crates/shielder-account/src/lib.rs:63-84 | When one action registers and what it changes, including the wrap-around of a fee above the amount |
| `Account.RegisterAllIff` | crates/shielder-account/src/lib.rs:63-84 | A history with fees within amounts registers exactly if every action is of the account's token, there are fewer than 2^32, and the balance stays within 256 bits after every one |
| `Account.BalanceConserved` | crates/shielder-account/src/lib.rs:63-84 | With fees within amounts, the balance is the sum of what came in less fees less what went out |
| `LocalState.StepAgrees` | ts/shielder-sdk/src/state/localStateTransition.ts:21-49 | On agreeing states, null comes exactly with the underflow panic, and both move to agreeing states except for a NewAccount event on a nonzero balance, which the SDK overwrites and Rust adds to |
| `LocalState.RunAgrees` | ts/shielder-sdk/src/actions/utils.ts:14-50 | The same for every event sequence from any agreeing states in which every NewAccount event finds an empty account |
| `LocalState.RunAgreesIff` | ts/shielder-sdk/src/state/localStateTransition.ts:21-49 | For any events: where both implementations succeed, they agree in the end if and only if every NewAccount event found an empty account |
| `LocalState.RustAndTypeScriptAgree` | ts/shielder-sdk/src/state/localStateTransition.ts:21-49 | On every history of an account both implementations fail alike or reach the same nonce, balance, leaf index and note contents, and the Rust history says what the events say |
| `Recovery.GetBlockOfNullifierSpending` | crates/shielder-contract/src/recovery.rs:62-86 | The block of spending is the stored number less one; zero is unspent, too large a number an error |
| `Recovery.GetShielderAction` | crates/shielder-contract/src/recovery.rs:20-59 | The search through the block returns the action of the first call that spends the nullifier, or stops at the first call without an event |
| `Recovery.FindActionExact` | crates/shielder-contract/src/recovery.rs:38-59 | The three results of a search: nothing exactly if every transaction is passed; an error exactly if the first one not passed is a call without an event; otherwise the action of the first call that names the nullifier, whoever made it and whoever emitted the event |
| `Recovery.SpentOutcome` | crates/shielder-contract/src/recovery.rs:20-86 | A nullifier that the contract spent is looked up in its block, and the result is the true action if and only if the spender is a direct call, the first event of its kind in the logs is the contract's own, and every earlier call in the block has an event and names another nullifier |
| `Recovery.RecoverState` | crates/shielder-cli/src/recovery.rs:10-38 | The loop computes the recovery function on the account |
| `Recovery.TurnsBounded` | crates/shielder-cli/src/recovery.rs:28-36 | With injective hashing the loop turns at most once for every spent nullifier on any chain, so with fewer than 2^32 of them ahead the nonce cannot overflow |
| `Recovery.RecoveryEqualsHistory` | crates/shielder-cli/src/recovery.rs:28-36 | From any prefix of what the contract did for an account, recovery gives the state of the whole history if and only if every remaining action can be found in the above sense |
| `Recovery.RecoveredFromEvents` | crates/shielder-cli/src/recovery.rs:28-36 | Where every action can be found: the recovered nonce counts the contract's events, the balance is the sum of amounts less fees of creations and deposits less the amounts of withdrawals, the leaf is that of the last event, and every history entry has the kind, amount, fee, token, index, hash and address of its event |
| `Recovery.FirstEventExact` | crates/shielder-contract/src/events.rs:11-31 | The event taken for a call is the first in the logs of the call's kind, and there is none only if no log is of that kind |
| `Recovery.BlockOfSpendingExact` | crates/shielder-contract/src/recovery.rs:62-86 | Zero or no entry is unspent, b + 1 means block b, and numbers above the largest block number are an error; a block that is not there is one too |
| `Recovery.RecoveryDiverges` | crates/shielder-cli/src/recovery.rs:28-36 | At the first action that cannot be found, recovery fails, or ends without an error and with the history cut, or goes on with an action that the account did not perform |
| `Recovery.ForeignCallIsBelieved` | crates/shielder-contract/src/recovery.rs:38-59 | A transaction of another contract that decodes as a deposit with the account's nullifier, earlier in the block, is registered instead of the action |
| `Recovery.WrappedCallIsMissed` | crates/shielder-contract/src/recovery.rs:90-145 | An action made through another contract is not found, and recovery ends without an error and without it |
| `Recovery.ForeignEventIsBelieved` | crates/shielder-contract/src/events.rs:11-31 | An event of the same kind that another contract logs earlier in the transaction is taken for the contract's |
| `Recovery.RecoveryIsIdempotent` | crates/shielder-cli/src/recovery.rs:28-36 | On every chain, recovering a recovered account changes nothing |
| `Recovery.ActionsAreDistinct` | crates/shielder-account/src/lib.rs:110-126 | With injective hashing distinct actions spend distinct nullifiers, at distinct places |
| `Indexer.ProcessLogs` | crates/ar-cli/src/index_events.rs:66-143 | The logs of a batch become rows in order, unknown topics skipped, every row without a label |
| `Indexer.Run` | crates/ar-cli/src/index_events.rs:38-61 | The batch loop performs exactly the writes of a run from the larger of from_block and checkpoint |
| `Indexer.Database.UpsertEvent` | crates/ar-cli/src/db.rs:50-57 | The row of the transaction is replaced, nothing else |
| `Indexer.Database.UpdateCheckpoint` | crates/ar-cli/src/db.rs:121-132 | The one checkpoint row is replaced |
| `Indexer.Database.QueryCheckpoint` | crates/ar-cli/src/db.rs:134-144 | A missing checkpoint reads as zero |
| `Restart.CompleteShape` | crates/ar-cli/src/index_events.rs:44-61 | For every batch size the batches tile the range: every log is written once and in order, and the checkpoint ends at the height |
| `Restart.PrefixShape` | crates/ar-cli/src/index_events.rs:44-61 | Stopped after any number of writes, a run has written a prefix of its entries, and a moved checkpoint is at a block all of whose entries are in that prefix |
| `Restart.InterruptedKeeps` | crates/ar-cli/src/index_events.rs:38-61 | A run stopped after any number of writes keeps every block below the checkpoint exact, every transaction of the checkpoint block present, and every row one of the chain's |
| `Restart.CompleteIsReference` | crates/ar-cli/src/index_events.rs:38-61 | From any such state a complete run gives, labels aside, the rows of a single run |
| `Restart.ReferenceIsLastLogs` | crates/ar-cli/src/index_events.rs:66-143 | The rows of a single run, read off the chain: one for every transaction with a log in the range, with the block and the reduced salt and commitment of its last log, and no label |
| `ViewingKeys.KeysOfBlockExact` | crates/ar-cli/src/collect_viewing_keys.rs:75-119 | A block publishes exactly the decrypted keys of the account creations sent to the contract |
| `ViewingKeys.KeyTable.UpsertViewingKey` | crates/ar-cli/src/db.rs:161-171 | The key is added to the table |
| `ViewingKeys.KeyTable.CollectBlock` | crates/ar-cli/src/collect_viewing_keys.rs:75-119 | The keys of all account creations sent to the contract are added |
| `ViewingKeys.KeyTable.Collect` | crates/ar-cli/src/collect_viewing_keys.rs:63-125 | The block loop performs exactly the writes of a scan; a block that the provider does not return is skipped and checkpointed all the same |
| `ViewingKeys.KeyTable.QueryViewingKeys` | crates/ar-cli/src/db.rs:173-187 | All keys of the table and no others, in some order |
| `ViewingKeys.CollectedKeeps` | crates/ar-cli/src/collect_viewing_keys.rs:63-125 | A scan stopped after any number of writes loses no key, has only published ones, and has all those up to the checkpoint except of blocks that some scan did not get |
| `ViewingKeys.ScanAdds` | crates/ar-cli/src/collect_viewing_keys.rs:67-125 | A complete scan adds exactly the keys of the blocks from its start on that it got |
| `ViewingKeys.CollectAdds` | crates/ar-cli/src/collect_viewing_keys.rs:63-125 | A complete collection adds exactly the keys of the blocks it got from the checkpoint block, or without one from from_block, up to the height |
| `ViewingKeys.FirstScanExactIff` | crates/ar-cli/src/collect_viewing_keys.rs:67-125 | The first scan collects all published keys if and only if every key of a block it did not get is also published in one that it got |
| `ViewingKeys.CompleteScanIsPublished` | crates/ar-cli/src/collect_viewing_keys.rs:63-125 | After any interrupted scans, a complete one has only published keys, and all those of blocks that no scan missed |
| `Revoker.QueryEvents` | crates/ar-cli/src/db.rs:76-103 | Every row of the table and no others |
| `Revoker.Revoke` | crates/ar-cli/src/revoke.rs:17-53 | Rows keep everything but the label; labelled rows and the checkpoint stay; a new label is a collected key whose hash with the salt is the commitment, and a row stays unlabelled only if no collected key has that hash |
| `Revoker.FirstMatchExact` | crates/ar-cli/src/revoke.rs:32-47 | The chosen key is the first listed one whose hash with the salt is the commitment; none is chosen only if there is none |
| `Revoker.SessionKeeps` | crates/ar-cli/src/index_events.rs:26-64 | Every mixture of index, collect and revoke commands, each stopped anywhere, over a growing chain, keeps all invariants |
| `Revoker.LabelsAlwaysTrue` | crates/ar-cli/src/revoke.rs:29-46 | In every state that any session reaches, a label is a collected key whose hash with the salt is the commitment of its row |
| `Revoker.RestartSafe` | crates/ar-cli/src/index_events.rs:38-61 | After any session one complete index run gives, labels aside, the rows of a single uninterrupted run, whatever the batch sizes |
| `Revoker.IndexedUpToCheckpoint` | crates/ar-cli/src/db.rs:121-144 | After any session every block below the checkpoint is exact and every transaction of the checkpoint block has a row |
| `Revoker.CheckpointExactIff` | crates/ar-cli/src/index_events.rs:44-60 | The checkpoint block itself is exact after every session if and only if no transaction emits two different events |
| `Revoker.RevokedIsExact` | crates/ar-cli/src/revoke.rs:17-53 | After any session and a complete revocation: the same rows, a label is a collected key whose hash with the row's salt is its commitment, and a row without one has that hash for no collected key |
| `Revoker.PassIsExact` | crates/ar-cli/src/revoke.rs:17-53 | After any session and a complete index, collect and revoke: exactly the rows of a single run, a label is a published key whose hash with the row's salt is its commitment, and a row without one has that hash for no key published in a block that every collection got |
| `Revoker.PassIsCanonical` | crates/ar-cli/src/revoke.rs:17-53 | If a commitment determines its key and the provider returned every block, that table depends on nothing that happened before, nor on batch size or key order |
| `Revoker.LabelSurvivesIff` | crates/ar-cli/src/index_events.rs:133-142 | Labels are not monotone: a complete index run keeps every row of the blocks below the checkpoint and removes every label from there on |
| `ProtocolFee.GrossFits` | crates/shielder-setup/lib.rs:90-98 | Up to 100 % the gross formula never panics and the fee is within the amount |
| `ProtocolFee.GrossPanics` | crates/shielder-setup/lib.rs:90-98 | At any rate the gross formula panics exactly when amount times rate exceeds 10000 times the largest 256-bit value |
| `ProtocolFee.NetFits` | crates/shielder-setup/lib.rs:100-107 | Up to 100 % the net formula panics exactly at 100 % and when amount times rate exceeds the largest 256-bit value times (10000 - rate); otherwise it is the exact fraction rounded up |
| `ProtocolFee.Galois` | crates/shielder-setup/lib.rs:87-107 | n + net(n) <= g if and only if n <= g - gross(g) |
| `ProtocolFee.NetThenGross` | crates/shielder-setup/lib.rs:87-107 | Adding the net fee is charged exactly that fee |
| `ProtocolFee.GrossThenNet` | crates/shielder-setup/lib.rs:87-107 | The other way the fee comes back exactly unless 0 < g b mod 10000 <= b, when the net formula gives strictly less |
| `MerklePath.BytesToBigint` | ts/shielder-sdk-crypto/src/scalar.ts:12-19 | The loop computes the little-endian value |
| `MerklePath.BigintToScalarBytes` | ts/shielder-sdk-crypto/src/scalar.ts:84-94 | An error outside [0, r), otherwise the little-endian bytes |
| `MerklePath.NewScalar` | ts/shielder-sdk-crypto/src/scalar.ts:29-38 | Accepts exactly 32 bytes whose value is < r |
| `MerklePath.FromBigint` | ts/shielder-sdk-crypto/src/scalar.ts:48-50 | Succeeds exactly on [0, r), and the bytes have the given value |
| `MerklePath.ValueOfLittleEndian` | ts/shielder-sdk-crypto/src/scalar.ts:12-19 | Decoding the encoding of any number that fits gives it back |
| `MerklePath.LittleEndianOfValue` | ts/shielder-sdk-crypto/src/scalar.ts:84-94 | Encoding the value of any bytes gives them back |
| `MerklePath.VecToPath` | crates/shielder_bindings/src/utils.rs:36-60 | The nested loops succeed exactly on 7 * 13 * 32 bytes of scalars and give them in row-major order |
| `MerklePath.ReorganizeMerklePath` | crates/shielder-contract/src/merkle_path.rs:17-36 | Succeeds exactly on length 7 * 13 + 1 and gives the root and the row-major matrix |
| `MerklePath.Transport` | ts/shielder-sdk/src/actions/utils.ts:52-75 | The client accepts exactly paths of that length with elements < r; the bytes it sends decode to the matrix that the command line makes of the same path, with the same root |

## Left out

- The polynomial commitment code (`bdfg21`, `gwc19`), the Solidity templates and contracts, and
  `group_backward_adjacent_words` and `group_backward_adjacent_ec_points`, which only that code uses.
- Circuits, real cryptography, proof generation and the wasm, mobile and TEE wrappers.
- The text of emitted code: indentation, hexadecimal padding and the printing of names. Emitted
  statements are values of a datatype, and named memory constants do not alias numbered words.
- The generated Poseidon2 functions `sum`, `mm4`, `fr_mm` and `fr_intro` are methods rather than
  printed Yul; memory is an array of words at multiples of 32.
- Circuits without permutation columns: the generator subtracts one from the number of
  permutation polynomials (evaluator.rs line 56, util.rs line 68).
- `num_challenges` and the number of challenges per phase, which only the template uses.
- ProtocolFee.NetFits: fees above 100 %, where the 512-bit denominator of the net formula wraps, are not modelled.
- Overflow of block numbers, memory ordering beyond one atomic counter, closing of the
  relayer's queue, and the recharge worker behind its channel.
- Malformed logs, blobs of the wrong length and failing writes of the revoker, each of which ends
  a command early; ending early anywhere is modelled.
- Chain reorganisations: the chain only grows.
- HTTP, RPC providers, SQLite, files, logging, prices, command-line parsing and deployment.
- Notes are compared by what they commit to (id, nullifier, balance, token), not by their hash.
- Account.ShielderAccount.RegisterAction: a nonce that no longer fits in 32 bits is treated as a panic, as in a build with overflow checks; a build without them wraps.
- Recovery.RecoverState: that the loop ends on every chain rests on the same panic; `Recovery.TurnsBounded` shows that with injective hashing it takes at least 2^32 spent nullifiers, less the nonce at the start, to get there.
