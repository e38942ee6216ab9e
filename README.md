# Lark core in Dafny

A model of the core of Lark, a small incremental dataflow engine written in Swift, with
its two supporting value types:

- **`Brain`** (module `Brains`, with its pure specification in `Propagation`). Construction
  turns a lexicon (lemma → `Concept(f, x)`) and a function table into neurons and a
  reverse-dependency index. Writes are queued in `change` and thoughts in `thoughts`.
  `commit(thoughts:)` merges both, a write beating a thought for the same lemma in that
  first merge, and folds the merge into `state`. The merged thoughts are not cleared, so the
  first round takes them up again (see "## Findings"). It then runs at most `max(count, 0)`
  rounds. In each round every neuron affected by the last writes runs against the
  round-start state, and the round's thoughts are merged.
  Finally the change is published to the node subjects, and the last round's writes stay
  pending. The class `Brains.Brain` runs the loops and is proved against the functions
  `Propagation.Begin`, `Round`, `Rounds` and `Think`. The lemmas about those functions carry
  the properties: order independence, no key lost, published values committed, and the
  fixed point.
- **`Tree`** (module `Trees`): a leaf, array or dictionary value read by a path of index or
  key steps. It has the path getter, the defaulted getters, the path setter and `==`.
- **`Buffered`** (module `Buffers`): a two-slot cell. Getters read the committed slot,
  setters write the staged slot, and `commit()` promotes staged to committed. Key paths
  are modelled as lenses.
- **`BufferedKeyPathSubjects`** (module `KeyPathSubjects`): a `Buffered` value that records
  the paths written since the last commit. On `commit()` it sends the new field value to the
  subjects of exactly those paths. `Notifications.Notified` states what a log of sends
  delivers.

Subjects (Combine `CurrentValueSubject`s) are modelled by the value each one holds. Every
send is recorded in a ghost log `sent` of `(key, value)` pairs.

Assumptions about helper types that are not part of this model:

- `DefaultingDictionary` reads `blank` for a missing key (`Propagation.Read`).
- Assigning nil through it removes the key. So a synchronous function returning nil, or
  failing, leaves no thought for its neuron (`Propagation.Fire`).
- `subjects[lemma]?.send` reaches only subjects that already exist.
- `EitherType<Int, Key>` is the datatype `Trees.Index`.

Reading a node (`Brain.Signal`) returns the committed `state`, as the getter at
Sources/Lark/Brain/Brain.swift:61-62 does. A pending write is never visible before `commit`;
the model follows the code.

## Model

| member | source | states |
|---|---|---|
| Trees.Empty | Sources/Lark/Tree.swift:11-17 | `empty`, `init()` and the nil literal are the dictionary with no entry |
| Trees.EmptyHoldsNothing | Sources/Lark/Tree.swift:11-17 | the empty tree is itself at the empty path and holds nothing at any other path |
| Trees.Get | Sources/Lark/Tree.swift:77-99 | an empty path yields the tree itself; a leaf yields itself whatever path follows |
| Trees.GetArray | Sources/Lark/Tree.swift:87-91 | on an array, a key step or an out-of-range index yields nil; an in-range index descends with the rest of the path |
| Trees.GetDictionary | Sources/Lark/Tree.swift:93-97 | on a dictionary, an index step or an absent key yields nil; a present key descends with the rest of the path |
| Trees.GetCompose | Sources/Lark/Tree.swift:80-98 | reading along `p + q` is nil when reading along `p` is nil, and otherwise is reading `q` from what `p` found |
| Trees.GetOrDefault | Sources/Lark/Tree.swift:71-75 | the defaulted read returns the found subtree when there is one and the supplied default otherwise |
| Trees.Put | Sources/Lark/Tree.swift:100-105 | the setter as written: an empty path replaces the tree, nil becoming the empty dictionary; any other path leaves the tree unchanged |
| Trees.PutDropsNestedWrite | Sources/Lark/Tree.swift:100-105 | a value set under a key of the empty tree cannot be read back there |
| Trees.WriteThenGet | Sources/Lark/Tree.swift:100-105 | with containers created along the path, what is set at a path without negative indices is read back there |
| Trees.WriteTwice | Sources/Lark/Tree.swift:100-105 | with containers created along the path, a second set at the same path overrides the first |
| Trees.Equal | Sources/Lark/Tree.swift:111-118 | `==` holds only between trees of the same variant, and between leaves only when their values are equal |
| Trees.EqualIsIdentity | Sources/Lark/Tree.swift:111-118 | `==` holds exactly of identical trees and never across variants |
| Buffers.Buffered.constructor | Sources/Lark/Buffered.swift:8 | both slots hold the initial value |
| Buffers.Buffered.Committed | Sources/Lark/Buffered.swift:14-16 | a fresh cell whose two slots hold the receiver's staged value |
| Buffers.Buffered.Commit | Sources/Lark/Buffered.swift:20-23 | returns the staged value, both slots then hold it, and a commit with no write since the last changes nothing |
| Buffers.Buffered.Value | Sources/Lark/Buffered.swift:35-36 | the whole-value getter reads the committed slot: it sees the staged value once the cell is settled and never a pending one |
| Buffers.Buffered.Member | Sources/Lark/Buffered.swift:29-30 | the member getter is the field of what the whole-value getter reads |
| Buffers.Buffered.SetValue | Sources/Lark/Buffered.swift:35-38 | the whole-value setter changes the staged slot only; the getter's value is unchanged |
| Buffers.Buffered.SetMember | Sources/Lark/Buffered.swift:29-33 | the member setter replaces the field in the staged slot only; the getters' values are unchanged |
| Buffers.WriteCommitRead | Sources/Lark/Buffered.swift:20-30 | for a lawful key path, a member write is not seen before the commit and is read back after it, both slots then agreeing (the round trip the JSON test of `Buffered` exercises) |
| Buffers.Same | Sources/Lark/Buffered.swift:44-46 | equal cells have equal committed and staged slots; a cell with a pending write never equals a settled one |
| KeyPathSubjects.BufferedKeyPathSubjects.constructor | Sources/Lark/BufferedKeyPathSubjects.swift:14 | a fresh buffer of the value, no subject, no written path |
| KeyPathSubjects.BufferedKeyPathSubjects.Get | Sources/Lark/BufferedKeyPathSubjects.swift:16-19 | a member read is the field of the committed value; a field not written since the last commit reads the same in the staged value |
| KeyPathSubjects.BufferedKeyPathSubjects.Set | Sources/Lark/BufferedKeyPathSubjects.swift:16-24 | the field changes in the staged value only, reads are unchanged, and the path joins the written set once |
| KeyPathSubjects.BufferedKeyPathSubjects.Commit | Sources/Lark/BufferedKeyPathSubjects.swift:26-33 | the written set is emptied and the buffer committed; exactly the written paths with a subject are sent their new field value, once each; without a write nothing is sent, and the value is unchanged unless the buffer was written directly; callable in every state, including after a direct write to `value`; subjects that held committed fields still do |
| KeyPathSubjects.BufferedKeyPathSubjects.Send | Sources/Lark/BufferedKeyPathSubjects.swift:30-32 | each touched path that has a subject gets the field of the committed value and the sends are logged once each; with no touched path nothing is sent |
| KeyPathSubjects.BufferedKeyPathSubjects.Subject | Sources/Lark/BufferedKeyPathSubjects.swift:47-57 | the first access creates a subject seeded with the committed field; later accesses return it and add nothing |
| Propagation.Affected | Sources/Lark/Brain/Brain.swift:91-93 | the affected set is the union of the dependents of the changed lemmas: it holds each of them and nothing else |
| Propagation.AffectedDependents | Sources/Lark/Brain/Brain.swift:91-93 | on a wired Brain, the affected set is exactly the concepts listing a changed lemma as input, so each has a neuron |
| Propagation.AffectedByNothing | Sources/Lark/Brain/Brain.swift:91-93 | no change affects no neuron |
| Propagation.ThinkStep | Sources/Lark/Brain/Brain.swift:74-76 | running one more affected neuron is firing it on the thoughts left by the others; a lemma without a neuron changes nothing |
| Propagation.ThinkInAnyOrder | Sources/Lark/Brain/Brain.swift:74-81 | firing the affected neurons in any order, with repetitions, gives the same thoughts |
| Propagation.Begin | Sources/Lark/Brain/Brain.swift:71-72 | a pending write beats a pending thought for the same lemma, and the state then equals the writes on their keys and is unchanged elsewhere |
| Propagation.RoundsKeepKeys | Sources/Lark/Brain/Brain.swift:72-82 | rounds only merge into the state, so no lemma becomes unset (no key is removed) |
| Propagation.RoundsCommitChange | Sources/Lark/Brain/Brain.swift:72-82 | the state stays a base overlaid with the change, so every changed value is the committed one |
| Propagation.RoundsLeaveCommittedWrites | Sources/Lark/Brain/Brain.swift:77-87 | after at least one round, the writes left pending are already in the change and in the state |
| Propagation.RoundsSettled | Sources/Lark/Brain/Brain.swift:73-82 | from no writes and no thoughts no neuron runs and rounds change nothing |
| Propagation.StopAtFixedPoint | Sources/Lark/Brain/Brain.swift:77-78 | once a round yields no thoughts, later rounds run no neuron and change nothing |
| Propagation.CommitOutcome | Sources/Lark/Brain/Brain.swift:70-89 | after a commit the state is the old state overlaid with the old thoughts and the change, each changed value is committed, no key is lost, pending writes after a round are committed, and without a round the thoughts stay |
| Propagation.StaleThoughtBeatsWrite | Sources/Lark/Brain/Brain.swift:71-81 | as written, a lemma with a deferred neuron that is both written and thought of commits and publishes the thought after one round, although the first merge gave it the write |
| Propagation.BeginConsuming | Sources/Lark/Brain/Brain.swift:71-72 | the corrected start of `commit`: the same merge into the state, with the merged thoughts cleared |
| Propagation.WriteWinsFirstRound | Sources/Lark/Brain/Brain.swift:71-81 | from the corrected start, a written lemma that no neuron recomputes in the first round keeps its written value, committed and in the change |
| Notifications.Publish | Sources/Lark/Brain/Brain.swift:83-85 | every existing subject of a changed lemma holds its changed value and the others keep theirs; no subject is created |
| Brains.Wire | Sources/Lark/Brain/Brain.swift:35-46 | fails exactly when some concept's function is missing from the table, naming it; otherwise one neuron per concept and `connections[x]` holds exactly the concepts with input `x` |
| Brains.Connect | Sources/Lark/Brain/Brain.swift:45 | the concept is added to the dependents of each of its inputs, creating an entry where there was none |
| Brains.WiredAdd | Sources/Lark/Brain/Brain.swift:44-45 | one loop step turns the wiring of the concepts seen so far into the wiring with one more concept |
| Brains.Create | Sources/Lark/Brain/Brain.swift:27-47 | construction throws exactly when a function is missing, and otherwise yields a wired Brain with the given state and nothing pending |
| Brains.Brain.constructor | Sources/Lark/Brain/Brain.swift:32-34 | the Brain holds the lexicon, functions, wiring and state, with nothing pending and no subject |
| Brains.Brain.Signal | Sources/Lark/Brain/Brain.swift:61-62 | the node getter is the committed value, or nil for a lemma the state does not hold |
| Brains.Brain.Write | Sources/Lark/Brain/Brain.swift:61-64 | setting a node only records it in the change; the committed state is unchanged |
| Brains.Brain.WriteAll | Sources/Lark/Brain/Brain.swift:56-59 | the whole-map setter replaces the change; the committed state is unchanged |
| Brains.Brain.Subject | Sources/Lark/Brain/Brain.swift:52-54 | the first access creates a subject seeded with the committed value; later accesses return it |
| Brains.Brain.FireNeuron | Sources/Lark/Brain/Brain.swift:123-128 | a synchronous neuron sets its thought from its inputs read in the committed state; nil removes it |
| Brains.Brain.Deliver | Sources/Lark/Brain/Brain.swift:130-133 | the result of a deferred neuron arriving is assigned into the thoughts |
| Brains.Brain.Evaluate | Sources/Lark/Brain/Brain.swift:74-76 | the thoughts after the affected neurons ran are `Think` of the affected set |
| Brains.Brain.RunRound | Sources/Lark/Brain/Brain.swift:74-81 | one loop iteration computes exactly `Round` |
| Brains.Brain.RunRounds | Sources/Lark/Brain/Brain.swift:73-82 | the loop computes exactly `Rounds` of its start |
| Brains.Brain.Broadcast | Sources/Lark/Brain/Brain.swift:83-85 | each changed lemma with a subject is sent its value once and no other send is made |
| Brains.Brain.Commit | Sources/Lark/Brain/Brain.swift:70-89 | the new state, change, thoughts and result are those of `max(count, 0)` rounds from `Begin`; exactly the existing subjects of the change are sent its values; each published value is the committed one; no key is lost; after a round the pending writes are committed; with no round the thoughts stay |

## Left out

- The asynchronous neuron branch (Sources/Lark/Brain/Brain.swift:130-133) is scheduling on a run loop. It is modelled only as `Brains.Brain.Deliver`, which assigns a result into the thoughts between commits. A deferred neuron fired in a round changes nothing at that moment.
- Combine itself (`CurrentValueSubject`, `AnyCancellable`, the `weak self` of the lazy subjects) is not modelled. A subject is the value it holds, and sends are a ghost log.
- The `peek(as: .error, …)` diagnostic on a write replacing a thought is modelled only by the ghost set `replaced`.
- Tree's `any`, `cast`, the throwing `init(_ value: Any)` and `Tree.Error` are left out: they rely on runtime casts and string formatting. So are the array and dictionary literals and the `Index...` variadic subscripts, which forward to the modelled ones.
- `Buffered.debugDescription` is left out: it is string formatting only.
- `DefaultingDictionary`, `DefaultInsertingDictionary`, `BrainFunction`/`SyncBrainFunction`, `BrainWave.catch` and `EitherType` are not part of this model. They are replaced by the assumptions stated above.
- Key paths are a family of lenses `at: P -> Lens<V, A>` that share one projection type `A`, so a path's type is not tied to its field. Preserving `Coherent` across writes assumes distinct paths address disjoint fields (`KeyPathSubjects.Independent`), which overlapping Swift key paths do not satisfy.
- The subject stored in the type-erased `Subject` struct, and its cast back, are modelled by the projected value. A failing cast at Sources/Lark/BufferedKeyPathSubjects.swift:48 (same path, different `A`) cannot occur in the model.
- The engine is not claimed to reach a fixed point within `count` rounds, which depends on the functions. `Propagation.StopAtFixedPoint` states what happens once it does.
- Brains.Brain.Commit keeps the behaviour as written, stale thoughts included, so that it can be checked against the source; the corrected start `Propagation.BeginConsuming` is stated and proved about only in `Propagation`.
- KeyPathSubjects.BufferedKeyPathSubjects.Commit: a write made directly through the public `value` buffer is not recorded in `updated`, so the commit promotes it without notifying any subject; the model states this (no send, subjects unchanged) and does not promise that subjects stay in sync in that case.
- Concurrency (the unsynchronised reads and writes the source marks TODO) is out of scope: every operation is sequential.

## Findings

| source | as written | input that shows it | evidently intended | confidence | as-written member | corrected member |
|---|---|---|---|---|---|---|
| Sources/Lark/Tree.swift:100-105 | the path setter only handles the empty path; for any other path it returns without changing the tree | setting `x` at path `[K(k)]` on the empty tree, then reading `[K(k)]`, gives nil | a write at a path creates the missing containers and is read back at that path | medium, not executed | Trees.PutDropsNestedWrite | Trees.WriteThenGet |
| Sources/Lark/Brain/Brain.swift:71-81 | the thoughts merged at line 71 are not cleared, so round 1 sets `writes = thoughts[]` and merges a stale thought over a pending write into `change` and `state` | `x` has a deferred neuron whose result `b` arrived after an earlier commit; write `a` to `x`; commit with one round: `x` is committed and published as `b` | a write wins over a pending thought, as the merge at line 71 and its "Replacing thought" diagnostic say | medium, not executed | Propagation.StaleThoughtBeatsWrite | Propagation.WriteWinsFirstRound |
