/**
 * `Brain`: the dependency-graph engine. Writes are queued in `change`, computed results in
 * `thoughts`; `commit(thoughts:)` folds both into `state`, runs the neurons affected by what
 * changed for a bounded number of rounds, and publishes the change to the node subjects.
 */
module Brains {
  import opened Wrappers
  import opened Propagation
  import opened Notifications

  /** Construction's error: a concept names a function that is not in the table. */
  datatype BrainError<L> = MissingFunction(node: L, f: L)

  /** What construction builds from the lexicon: the neurons and the reverse-dependency index. */
  datatype Wiring<L(==), !S> = Wiring(neurons: map<L, Neuron<L, S>>, connections: map<L, set<L>>)

  /** Adding a concept adds its inputs to the mentioned lemmas. */
  lemma MentionedAdd<L, S>(lexicon: map<L, Concept<L>>, l: L, c: Concept<L>)
    requires l !in lexicon
    ensures Mentioned(lexicon[l := c]) == Mentioned(lexicon) + (set y | y in c.x)
  {
    var after := Mentioned(lexicon[l := c]);
    forall y | y in after ensures y in Mentioned(lexicon) || y in c.x {
      var l', x :| l' in lexicon[l := c] && x in lexicon[l := c][l'].x && x == y;
      if l' != l {
        assert y in Mentioned(lexicon);
      }
    }
    forall y | y in c.x ensures y in after {
      assert y in lexicon[l := c][l].x;
    }
    forall y | y in Mentioned(lexicon) ensures y in after {
      var l', x :| l' in lexicon && x in lexicon[l'].x && x == y;
      assert x in lexicon[l := c][l'].x;
    }
  }

  /**
   * The body of `init`'s loop over the lexicon: each concept gets a neuron holding its
   * function, and is recorded as a dependent of each of its inputs. It fails exactly when
   * some concept names a function that is not in the table; a missing concept cannot occur,
   * because the loop walks the lexicon's own keys.
   */
  method Wire<L(==), S>(lexicon: map<L, Concept<L>>, functions: map<L, Function<S>>)
    returns (r: Result<Wiring<L, S>, BrainError<L>>)
    ensures r.Failure? <==> !Resolves(lexicon, functions)
    ensures r.Failure? ==>
      r.error.node in lexicon && r.error.f == lexicon[r.error.node].f && r.error.f !in functions
    ensures r.Success? ==> Wired(lexicon, functions, r.value.neurons, r.value.connections)
  {
    var neurons: map<L, Neuron<L, S>> := map[];
    var connections: map<L, set<L>> := map[];
    var todo := lexicon.Keys;
    while todo != {}
      invariant todo <= lexicon.Keys
      invariant Wired(lexicon - todo, functions, neurons, connections)
      decreases todo
    {
      var l :| l in todo;
      var concept := lexicon[l];
      if concept.f !in functions {
        return Failure(MissingFunction(l, concept.f));
      }
      ghost var done := lexicon - todo;
      ghost var connections0 := connections;
      connections := Connect(connections, l, concept.x);
      WiredAdd(done, functions, neurons, connections0, connections, l, concept);
      neurons := neurons[l := Neuron(l, concept, functions[concept.f])];
      assert lexicon - (todo - {l}) == done[l := concept];
      todo := todo - {l};
    }
    assert lexicon - todo == lexicon;
    r := Success(Wiring(neurons, connections));
  }

  /**
   * The inner loop of `init`: `node` is inserted into the dependents of each of `inputs`,
   * a lemma without dependents so far getting the set of `node` alone.
   */
  method Connect<L(==)>(connections: map<L, set<L>>, node: L, inputs: seq<L>) returns (r: map<L, set<L>>)
    ensures r.Keys == connections.Keys + (set y | y in inputs)
    ensures forall y :: y in r ==>
      r[y] == (if y in connections then connections[y] else {}) + (if y in inputs then {node} else {})
  {
    r := connections;
    var j := 0;
    while j < |inputs|
      invariant 0 <= j <= |inputs|
      invariant r.Keys == connections.Keys + (set y | y in inputs[..j])
      invariant forall y :: y in r ==>
        r[y] == (if y in connections then connections[y] else {}) + (if y in inputs[..j] then {node} else {})
    {
      var x := inputs[j];
      assert inputs[..j + 1] == inputs[..j] + [x];
      r := r[x := (if x in r then r[x] else {}) + {node}];
      j := j + 1;
    }
    assert inputs[..j] == inputs;
  }

  /**
   * Giving a new concept its neuron and connecting its inputs turns what was built for
   * `done` into what is built for `done` with that concept.
   */
  lemma WiredAdd<L, S>(
    done: map<L, Concept<L>>, functions: map<L, Function<S>>,
    neurons: map<L, Neuron<L, S>>, connections: map<L, set<L>>, connections': map<L, set<L>>, l: L, c: Concept<L>)
    requires Wired(done, functions, neurons, connections)
    requires l !in done && c.f in functions
    requires connections'.Keys == connections.Keys + (set y | y in c.x)
    requires forall y :: y in connections' ==>
      connections'[y] == (if y in connections then connections[y] else {}) + (if y in c.x then {l} else {})
    ensures Wired(done[l := c], functions, neurons[l := Neuron(l, c, functions[c.f])], connections')
  {
    MentionedAdd<L, S>(done, l, c);
    var after := done[l := c];
    forall y | y in connections' ensures connections'[y] == Dependents(after, y) {
      if y in connections {
        assert connections[y] == Dependents(done, y);
      } else {
        assert y !in Mentioned(done);
      }
      assert Dependents(after, y) == Dependents(done, y) + (if y in c.x then {l} else {});
    }
  }

  /**
   * `Brain.init`: the lexicon is wired against the function table and the Brain starts from
   * `state` with nothing pending. A concept whose function is missing makes it throw.
   */
  method Create<L(==), S>(lexicon: map<L, Concept<L>>, functions: map<L, Function<S>>, state: map<L, S>, blank: S)
    returns (r: Result<Brain<L, S>, BrainError<L>>)
    ensures r.Failure? <==> !Resolves(lexicon, functions)
    ensures r.Failure? ==>
      r.error.node in lexicon && r.error.f == lexicon[r.error.node].f && r.error.f !in functions
    ensures r.Success? ==> fresh(r.value) && r.value.Valid()
    ensures r.Success? ==> r.value.lexicon == lexicon && r.value.functions == functions && r.value.blank == blank
    ensures r.Success? ==> r.value.state == state && r.value.change == map[] && r.value.thoughts == map[]
    ensures r.Success? ==> r.value.subjects == map[] && r.value.sent == []
  {
    var w := Wire(lexicon, functions);
    match w
    case Failure(e) =>
      r := Failure(e);
    case Success(wiring) =>
      var brain := new Brain(lexicon, functions, wiring, state, blank);
      r := Success(brain);
  }

  class Brain<L(==), S> {
    const lexicon: map<L, Concept<L>>
    const functions: map<L, Function<S>>
    const neurons: map<L, Neuron<L, S>>
    const connections: map<L, set<L>>
    /** The signal's nil literal: what `state` yields for a lemma it does not hold. */
    const blank: S

    var state: map<L, S>
    var change: map<L, S>
    var thoughts: map<L, S>
    /** The value each subject created so far holds. */
    var subjects: map<L, S>
    /** Every value sent to a subject so far, with the subject's lemma. */
    ghost var sent: seq<(L, S)>
    /** What the last commit published (its `change` when the rounds were over). */
    ghost var published: map<L, S>
    /** Lemmas whose pending thought a pending write replaced at the last commit (the logged error). */
    ghost var replaced: set<L>

    /** The neurons and the index are those construction builds from the lexicon. */
    ghost predicate Valid() {
      Wired(lexicon, functions, neurons, connections)
    }

    /** The parts of the Brain that do not change. */
    function Topology(): Graph<L, S> {
      Graph(neurons, connections, blank)
    }

    /** The assignments of `init` once wiring has succeeded. */
    constructor (lexicon: map<L, Concept<L>>, functions: map<L, Function<S>>, wiring: Wiring<L, S>, state: map<L, S>, blank: S)
      requires Wired(lexicon, functions, wiring.neurons, wiring.connections)
      ensures Valid()
      ensures this.lexicon == lexicon && this.functions == functions && this.blank == blank
      ensures neurons == wiring.neurons && connections == wiring.connections
      ensures this.state == state && change == map[] && thoughts == map[]
      ensures subjects == map[] && sent == [] && published == map[] && replaced == {}
    {
      this.lexicon, this.functions, this.blank := lexicon, functions, blank;
      neurons, connections := wiring.neurons, wiring.connections;
      this.state, change, thoughts := state, map[], map[];
      subjects, sent, published, replaced := map[], [], map[], {};
    }

    /** The node getter `self[lemma]`: the committed value, or nil; pending writes are not seen. */
    function Signal(node: L): (r: S)
      reads this
      ensures node in state ==> r == state[node]
      ensures node !in state ==> r == blank
    {
      Read(state, node, blank)
    }

    /** The node setter: the write is queued in `change` and no read sees it before a commit. */
    method Write(node: L, v: S)
      modifies this`change
      ensures change == old(change)[node := v]
      ensures state == old(state)
    {
      change := change[node := v];
    }

    /** The whole-map setter `self[] = m`: the queued writes become exactly `m`. */
    method WriteAll(m: map<L, S>)
      modifies this`change
      ensures change == m
      ensures state == old(state)
    {
      change := m;
    }

    /**
     * The subject of a node: the first access creates it holding the node's committed
     * value (or nil) and keeps it; later accesses return the kept subject.
     */
    method Subject(node: L) returns (v: S)
      modifies this`subjects
      ensures node in old(subjects) ==> subjects == old(subjects) && v == old(subjects)[node]
      ensures node !in old(subjects) ==> subjects == old(subjects)[node := Signal(node)] && v == Signal(node)
    {
      if node !in subjects {
        subjects := subjects[node := Signal(node)];
      }
      v := subjects[node];
    }

    /** A deferred neuron's result arriving: it is assigned into `thoughts` for a later commit. */
    method Deliver(node: L, v: S)
      requires node in neurons && neurons[node].f.Deferred?
      modifies this`thoughts
      ensures thoughts == old(thoughts)[node := v]
    {
      thoughts := thoughts[node := v];
    }

    /** `Neuron.commit(to:)`: the neuron runs against the committed state. */
    method FireNeuron(n: Neuron<L, S>)
      modifies this`thoughts
      ensures thoughts == Fire(n, state, blank, old(thoughts))
    {
      match n.f
      case Deferred =>
      case Immediate(f) =>
        var inputs := Inputs(state, n.concept.x, blank);
        var result := f(inputs);
        match result
        case Some(v) => thoughts := thoughts[n.node := v];
        case None => thoughts := thoughts - {n.node};
    }

    /**
     * `commit(thoughts: count)`. Pending writes win over pending thoughts and both are folded
     * into the state; then `max(count, 0)` rounds run (`Rounds`); the change is published to
     * the existing subjects; the last round's writes stay pending and are returned.
     * The new state is the old one overlaid with the old thoughts and then with everything
     * published, so every published value is the committed one; no lemma becomes unset;
     * after at least one round what stays pending is already committed; with no round at all
     * the thoughts stay pending.
     */
    method Commit(count: int) returns (result: map<L, S>)
      requires Valid()
      modifies this`state, this`change, this`thoughts, this`subjects, this`sent, this`published, this`replaced
      ensures var m := Rounds(Topology(), Begin(old(state), old(change), old(thoughts)), if count > 0 then count else 0);
        && state == m.state && thoughts == m.thoughts && published == m.change
        && change == m.writes && result == m.writes
      ensures replaced == old(change).Keys * old(thoughts).Keys
      ensures subjects == Publish(old(subjects), published)
      ensures |sent| >= |old(sent)| && sent[..|old(sent)|] == old(sent)
      ensures Notified(sent[|old(sent)|..], Due(old(subjects), published))
      ensures state == old(state) + old(thoughts) + published
      ensures Submap(published, state)
      ensures old(state).Keys <= state.Keys
      ensures count >= 1 ==> Submap(change, published) && Submap(change, state)
      ensures count <= 0 ==> thoughts == old(thoughts)
    {
      var writes := thoughts + change;
      replaced := change.Keys * thoughts.Keys;
      state := state + writes;
      assert Mind(state, change, thoughts, writes) == Begin(old(state), old(change), old(thoughts));
      var n := if count > 0 then count else 0;
      writes := RunRounds(writes, n);
      CommitOutcome(Topology(), old(state), old(change), old(thoughts), n);
      published := change;
      Broadcast();
      change := writes;
      result := change;
    }

    /** The rounds of `commit`: `n` rounds one after the other. */
    method RunRounds(writes: map<L, S>, n: nat) returns (writes': map<L, S>)
      requires Valid()
      modifies this`state, this`change, this`thoughts
      ensures Mind(state, change, thoughts, writes') == Rounds(Topology(), Mind(old(state), old(change), old(thoughts), writes), n)
    {
      ghost var m0 := Mind(state, change, thoughts, writes);
      writes' := writes;
      var i := 0;
      while i < n
        invariant 0 <= i <= n
        invariant Rounds(Topology(), m0, n) == Rounds(Topology(), Mind(state, change, thoughts, writes'), n - i)
      {
        ghost var before := Mind(state, change, thoughts, writes');
        writes' := RunRound(writes');
        assert Rounds(Topology(), before, n - i) == Rounds(Topology(), Round(Topology(), before), n - i - 1);
        i := i + 1;
      }
    }

    /**
     * One round of `commit`: the neurons affected by the last writes run; their thoughts are
     * the new writes and, when there are any, are merged into the change and the state.
     */
    method RunRound(writes: map<L, S>) returns (writes': map<L, S>)
      requires Valid()
      modifies this`state, this`change, this`thoughts
      ensures Mind(state, change, thoughts, writes') == Round(Topology(), Mind(old(state), old(change), old(thoughts), writes))
    {
      Evaluate(Affected(connections, writes));
      writes' := thoughts;
      if |writes'| != 0 {
        thoughts := map[];
        change := change + writes';
        state := state + writes';
      }
    }

    /** The inner loop of a round: every neuron in `affected` runs against the same state. */
    method Evaluate(affected: set<L>)
      requires Valid()
      modifies this`thoughts
      ensures thoughts == Think(Topology(), affected, state, old(thoughts))
    {
      var todo := affected;
      ghost var t0 := thoughts;
      while todo != {}
        invariant todo <= affected
        invariant thoughts == Think(Topology(), affected - todo, state, t0)
        decreases todo
      {
        var l :| l in todo;
        ThinkStep(Topology(), affected - todo, l, state, t0);
        if l in neurons {
          FireNeuron(neurons[l]);
        }
        assert affected - (todo - {l}) == (affected - todo) + {l};
        todo := todo - {l};
      }
      assert affected - todo == affected;
    }

    /** The publishing loop of `commit`: each changed lemma that has a subject is sent its value. */
    method Broadcast()
      modifies this`subjects, this`sent
      ensures subjects == Publish(old(subjects), change)
      ensures |sent| >= |old(sent)| && sent[..|old(sent)|] == old(sent)
      ensures Notified(sent[|old(sent)|..], Due(old(subjects), change))
    {
      var todo := change.Keys;
      ghost var subjects0, sent0 := subjects, sent;
      while todo != {}
        invariant todo <= change.Keys
        invariant subjects == Publish(subjects0, Restrict(change, change.Keys - todo))
        invariant |sent| >= |sent0| && sent[..|sent0|] == sent0
        invariant Notified(sent[|sent0|..], Due(subjects0, Restrict(change, change.Keys - todo)))
        decreases todo
      {
        var l :| l in todo;
        ghost var done := change.Keys - todo;
        assert change.Keys - (todo - {l}) == done + {l};
        RestrictStep(change, done, l);
        PublishStep(subjects0, Restrict(change, done), l, change[l]);
        if l in subjects {
          var v := change[l];
          NotifiedAppend(sent[|sent0|..], Due(subjects0, Restrict(change, done)), l, v);
          assert (sent + [(l, v)])[|sent0|..] == sent[|sent0|..] + [(l, v)];
          subjects := subjects[l := v];
          sent := sent + [(l, v)];
        }
        todo := todo - {l};
      }
      assert change.Keys - todo == change.Keys;
      assert Restrict(change, change.Keys) == change;
    }
  }

  /** The part of `m` on the keys in `done`. */
  ghost function Restrict<L, S>(m: map<L, S>, done: set<L>): map<L, S> {
    map k | k in done && k in m :: m[k]
  }

  /** Taking one more key of `m`. */
  lemma RestrictStep<L, S>(m: map<L, S>, done: set<L>, l: L)
    requires l in m && l !in done
    ensures l !in Restrict(m, done)
    ensures Restrict(m, done + {l}) == Restrict(m, done)[l := m[l]]
  {
  }
}
