/**
 * The pure specification of the Brain: its static description (concepts, functions,
 * neurons and the reverse-dependency index) and what one `commit(thoughts:)` computes,
 * round by round.
 */
module Propagation {
  import opened Wrappers

  /** A node's description: the lemma naming its function, and its inputs in order. */
  datatype Concept<L> = Concept(f: L, x: seq<L>)

  /**
   * A `BrainFunction`. `Immediate` is a `SyncBrainFunction`: it maps the inputs to a new
   * signal, or to None when it fails or has nothing new. `Deferred` is any other function,
   * whose result arrives later (see `Brain.Deliver`).
   */
  datatype Function<!S> = Immediate(f: seq<S> -> Option<S>) | Deferred

  /** The runtime pairing of a node's concept with its resolved function. */
  datatype Neuron<L, !S> = Neuron(node: L, concept: Concept<L>, f: Function<S>)

  /** What a commit needs of a Brain besides its mutable maps; `blank` is the signal's nil. */
  datatype Graph<L(==), !S> = Graph(neurons: map<L, Neuron<L, S>>, connections: map<L, set<L>>, blank: S)

  /** `state[k]` on a `DefaultingDictionary` whose default is `blank`. */
  function Read<L(==), S>(m: map<L, S>, k: L, blank: S): S {
    if k in m then m[k] else blank
  }

  /** The inputs a neuron sees: each of its concept's inputs read from `state`, in order. */
  function Inputs<L(==), S>(state: map<L, S>, x: seq<L>, blank: S): seq<S> {
    seq(|x|, i requires 0 <= i < |x| => Read(state, x[i], blank))
  }

  /**
   * `Neuron.commit(to:)` on the pending thoughts: an immediate function's result becomes the
   * neuron's thought (None leaves no thought for it); a deferred one changes nothing now.
   */
  function Fire<L(==), S>(n: Neuron<L, S>, state: map<L, S>, blank: S, thoughts: map<L, S>): map<L, S> {
    match n.f
    case Deferred => thoughts
    case Immediate(f) =>
      match f(Inputs(state, n.concept.x, blank))
      case Some(v) => thoughts[n.node := v]
      case None => thoughts - {n.node}
  }

  /** Every neuron is filed under its own lemma. */
  ghost predicate Named<L, S>(g: Graph<L, S>) {
    forall l :: l in g.neurons ==> g.neurons[l].node == l
  }

  /** The thought for `k` once the neurons in `fired` have run against `state`. */
  function Outcome<L(==), S>(g: Graph<L, S>, fired: set<L>, state: map<L, S>, thoughts: map<L, S>, k: L): Option<S> {
    if k in fired && k in g.neurons && g.neurons[k].f.Immediate? then
      g.neurons[k].f.f(Inputs(state, g.neurons[k].concept.x, g.blank))
    else if k in thoughts then Some(thoughts[k])
    else None
  }

  /**
   * The pending thoughts after every neuron in `fired` has run once against the same
   * `state`. Each neuron reads only `state` and writes only its own thought, so this
   * depends on the set and not on the order in which it is walked (`ThinkInAnyOrder`).
   */
  function Think<L(==), S>(g: Graph<L, S>, fired: set<L>, state: map<L, S>, thoughts: map<L, S>): map<L, S> {
    map k | k in thoughts.Keys + fired && Outcome(g, fired, state, thoughts, k).Some? ::
      Outcome(g, fired, state, thoughts, k).value
  }

  /** Running no neuron leaves the thoughts as they are. */
  lemma ThinkNothing<L, S>(g: Graph<L, S>, state: map<L, S>, thoughts: map<L, S>)
    ensures Think(g, {}, state, thoughts) == thoughts
  {
  }

  /** Running one more neuron is firing it on the thoughts left by the others. */
  lemma ThinkStep<L, S>(g: Graph<L, S>, fired: set<L>, l: L, state: map<L, S>, thoughts: map<L, S>)
    requires Named(g)
    ensures l in g.neurons ==>
      Think(g, fired + {l}, state, thoughts) == Fire(g.neurons[l], state, g.blank, Think(g, fired, state, thoughts))
    ensures l !in g.neurons ==> Think(g, fired + {l}, state, thoughts) == Think(g, fired, state, thoughts)
  {
    var before := Think(g, fired, state, thoughts);
    var after := Think(g, fired + {l}, state, thoughts);
    if l in g.neurons {
      var fire := Fire(g.neurons[l], state, g.blank, before);
      forall k ensures (k in after <==> k in fire) && (k in after ==> after[k] == fire[k]) {
        if k != l {
          assert Outcome(g, fired + {l}, state, thoughts, k) == Outcome(g, fired, state, thoughts, k);
        }
      }
    } else {
      forall k ensures (k in after <==> k in before) && (k in after ==> after[k] == before[k]) {
        assert Outcome(g, fired + {l}, state, thoughts, k) == Outcome(g, fired, state, thoughts, k);
      }
    }
  }

  /** Firing the neurons of `order` one after the other, skipping lemmas without a neuron. */
  function FireAll<L(==), S>(g: Graph<L, S>, order: seq<L>, state: map<L, S>, thoughts: map<L, S>): map<L, S> {
    if order == [] then thoughts
    else
      var next := if order[0] in g.neurons then Fire(g.neurons[order[0]], state, g.blank, thoughts) else thoughts;
      FireAll(g, order[1..], state, next)
  }

  /**
   * A round's thoughts do not depend on the order in which the affected set is walked:
   * firing its lemmas in any order, even with repetitions, gives `Think` of the set.
   */
  lemma {:induction false} ThinkInAnyOrder<L, S>(g: Graph<L, S>, order: seq<L>, state: map<L, S>, thoughts: map<L, S>)
    requires Named(g)
    ensures FireAll(g, order, state, thoughts) == Think(g, (set l | l in order), state, thoughts)
  {
    ThinkNothing(g, state, thoughts);
    FireAllFrom(g, order, {}, state, thoughts);
    assert {} + (set l | l in order) == set l | l in order;
  }

  lemma {:induction false} FireAllFrom<L, S>(g: Graph<L, S>, order: seq<L>, fired: set<L>, state: map<L, S>, thoughts: map<L, S>)
    requires Named(g)
    ensures FireAll(g, order, state, Think(g, fired, state, thoughts))
         == Think(g, fired + (set l | l in order), state, thoughts)
    decreases |order|
  {
    if order != [] {
      ThinkStep(g, fired, order[0], state, thoughts);
      FireAllFrom(g, order[1..], fired + {order[0]}, state, thoughts);
      assert fired + {order[0]} + (set l | l in order[1..]) == fired + (set l | l in order);
    }
  }

  /** `affected(by:)`: the lemmas whose concepts list some changed lemma among their inputs. */
  function Affected<L(==), S>(connections: map<L, set<L>>, changes: map<L, S>): (r: set<L>)
    ensures forall k :: k in changes && k in connections ==> connections[k] <= r
    ensures forall l :: l in r ==> exists k :: k in changes && k in connections && l in connections[k]
  {
    set k, l | k in changes && k in connections && l in connections[k] :: l
  }

  /** Nothing changed, nothing affected. */
  lemma AffectedByNothing<L, S>(connections: map<L, set<L>>)
    ensures Affected<L, S>(connections, map[]) == {}
  {
  }

  /** The lexicon's concepts that list `x` among their inputs. */
  ghost function Dependents<L>(lexicon: map<L, Concept<L>>, x: L): set<L> {
    set l | l in lexicon && x in lexicon[l].x
  }

  /** Every lemma some concept of the lexicon lists as an input. */
  ghost function Mentioned<L>(lexicon: map<L, Concept<L>>): set<L> {
    set l, x | l in lexicon && x in lexicon[l].x :: x
  }

  /** Every concept's function is in the function table. */
  ghost predicate Resolves<L, S>(lexicon: map<L, Concept<L>>, functions: map<L, Function<S>>) {
    forall l :: l in lexicon ==> lexicon[l].f in functions
  }

  /**
   * What construction builds: one neuron per concept, holding that concept and its
   * function, and the reverse-dependency index mapping each input to its dependents.
   */
  ghost predicate Wired<L, S>(
    lexicon: map<L, Concept<L>>, functions: map<L, Function<S>>,
    neurons: map<L, Neuron<L, S>>, connections: map<L, set<L>>)
  {
    && Resolves(lexicon, functions)
    && neurons.Keys == lexicon.Keys
    && (forall l :: l in neurons ==> neurons[l] == Neuron(l, lexicon[l], functions[lexicon[l].f]))
    && connections.Keys == Mentioned(lexicon)
    && (forall x :: x in connections ==> connections[x] == Dependents(lexicon, x))
  }

  /**
   * On a wired Brain, the affected set holds exactly the concepts that list a changed
   * lemma among their inputs, so each of them has a neuron.
   */
  lemma AffectedDependents<L, S>(
    lexicon: map<L, Concept<L>>, functions: map<L, Function<S>>,
    neurons: map<L, Neuron<L, S>>, connections: map<L, set<L>>, changes: map<L, S>)
    requires Wired(lexicon, functions, neurons, connections)
    ensures Affected(connections, changes) <= neurons.Keys
    ensures forall l :: l in Affected(connections, changes) <==>
      l in lexicon && exists i :: 0 <= i < |lexicon[l].x| && lexicon[l].x[i] in changes
  {
    forall l ensures l in Affected(connections, changes) <==>
      l in lexicon && exists i :: 0 <= i < |lexicon[l].x| && lexicon[l].x[i] in changes
    {
      if l in lexicon && exists i :: 0 <= i < |lexicon[l].x| && lexicon[l].x[i] in changes {
        var i :| 0 <= i < |lexicon[l].x| && lexicon[l].x[i] in changes;
        var k := lexicon[l].x[i];
        assert k in lexicon[l].x;
        assert k in Mentioned(lexicon);
        assert l in Dependents(lexicon, k);
      }
      if l in Affected(connections, changes) {
        var k :| k in changes && k in connections && l in connections[k];
        assert l in Dependents(lexicon, k);
        var i :| 0 <= i < |lexicon[l].x| && lexicon[l].x[i] == k;
      }
    }
  }

  /** A Brain's mutable maps during a commit, with the commit's local `writes`. */
  datatype Mind<L(==), S> = Mind(state: map<L, S>, change: map<L, S>, thoughts: map<L, S>, writes: map<L, S>)

  /**
   * The start of `commit`: pending writes and pending thoughts are merged, a write winning
   * over a thought for the same lemma, and the merge is folded into the state.
   */
  function Begin<L(==), S>(state: map<L, S>, change: map<L, S>, thoughts: map<L, S>): (m: Mind<L, S>)
    ensures m.writes.Keys == change.Keys + thoughts.Keys
    ensures forall k :: k in change ==> m.writes[k] == change[k]
    ensures forall k :: k in thoughts && k !in change ==> m.writes[k] == thoughts[k]
    ensures m.state.Keys == state.Keys + m.writes.Keys
    ensures forall k :: k in m.writes ==> m.state[k] == m.writes[k]
    ensures forall k :: k in state && k !in m.writes ==> m.state[k] == state[k]
    ensures m.change == change && m.thoughts == thoughts
  {
    var writes := thoughts + change;
    Mind(state + writes, change, thoughts, writes)
  }

  /**
   * One propagation round: every affected neuron runs against the state as it stood at
   * the start of the round. If that leaves no thoughts the round ends there; otherwise the
   * thoughts become the round's writes, are cleared, and are merged into change and state.
   */
  function Round<L(==), S>(g: Graph<L, S>, m: Mind<L, S>): Mind<L, S> {
    var t := Think(g, Affected(g.connections, m.writes), m.state, m.thoughts);
    if |t| == 0 then Mind(m.state, m.change, t, t)
    else Mind(m.state + t, m.change + t, map[], t)
  }

  /** `n` rounds one after the other. */
  function Rounds<L(==), S>(g: Graph<L, S>, m: Mind<L, S>, n: nat): Mind<L, S>
    decreases n
  {
    if n == 0 then m else Rounds(g, Round(g, m), n - 1)
  }

  /** Rounds only merge into the state: no lemma becomes unset (no key is removed). */
  lemma {:induction false} RoundsKeepKeys<L, S>(g: Graph<L, S>, m: Mind<L, S>, n: nat)
    ensures m.state.Keys <= Rounds(g, m, n).state.Keys
    decreases n
  {
    if n > 0 {
      RoundsKeepKeys(g, Round(g, m), n - 1);
    }
  }

  /**
   * If the state is some `base` overlaid with the change, it stays so: every round merges
   * its thoughts into both. In particular each value in `change` is the committed one.
   */
  lemma {:induction false} RoundsCommitChange<L, S>(g: Graph<L, S>, m: Mind<L, S>, n: nat, base: map<L, S>)
    requires m.state == base + m.change
    ensures Rounds(g, m, n).state == base + Rounds(g, m, n).change
    decreases n
  {
    if n > 0 {
      RoundCommitsChange(g, m, base);
      RoundsCommitChange(g, Round(g, m), n - 1, base);
    }
  }

  lemma RoundCommitsChange<L, S>(g: Graph<L, S>, m: Mind<L, S>, base: map<L, S>)
    requires m.state == base + m.change
    ensures Round(g, m).state == base + Round(g, m).change
  {
    var t := Think(g, Affected(g.connections, m.writes), m.state, m.thoughts);
    MergeAssociates(base, m.change, t);
  }

  /** Overlaying maps one after the other is associative. */
  lemma MergeAssociates<L, S>(a: map<L, S>, b: map<L, S>, c: map<L, S>)
    ensures (a + b) + c == a + (b + c)
  {
  }

  /** `a` agrees with `b` wherever `a` is defined. */
  ghost predicate Submap<L, S>(a: map<L, S>, b: map<L, S>) {
    forall k :: k in a ==> k in b && a[k] == b[k]
  }

  /**
   * After at least one round, the writes left pending for the next commit are already
   * part of both the change and the committed state.
   */
  lemma {:induction false} RoundsLeaveCommittedWrites<L, S>(g: Graph<L, S>, m: Mind<L, S>, n: nat)
    requires n >= 1
    ensures Submap(Rounds(g, m, n).writes, Rounds(g, m, n).change)
    ensures Submap(Rounds(g, m, n).writes, Rounds(g, m, n).state)
    decreases n
  {
    if n > 1 {
      RoundsLeaveCommittedWrites(g, Round(g, m), n - 1);
    }
  }

  /** From a settled mind (no writes, no thoughts) rounds change nothing: no neuron runs. */
  lemma {:induction false} RoundsSettled<L, S>(g: Graph<L, S>, m: Mind<L, S>, n: nat)
    requires m.writes == map[] && m.thoughts == map[]
    ensures Affected(g.connections, m.writes) == {}
    ensures Rounds(g, m, n) == m
    decreases n
  {
    AffectedByNothing<L, S>(g.connections);
    ThinkNothing(g, m.state, m.thoughts);
    if n > 0 {
      assert Round(g, m) == m;
      RoundsSettled(g, m, n - 1);
    }
  }

  /**
   * Once a round produces no thoughts the fixed point is reached: the round leaves no
   * thoughts and no writes, no neuron runs in any later round, and later rounds change nothing.
   */
  lemma StopAtFixedPoint<L, S>(g: Graph<L, S>, m: Mind<L, S>, n: nat)
    requires Round(g, m).writes == map[]
    ensures Round(g, m).thoughts == map[]
    ensures Affected(g.connections, Round(g, m).writes) == {}
    ensures Rounds(g, m, n + 1) == Round(g, m)
  {
    RoundsSettled(g, Round(g, m), n);
  }

  /**
   * What a whole commit of `n` rounds amounts to: the new state is the old one overlaid with
   * the old thoughts and then with everything changed, so each changed value is committed and
   * no lemma becomes unset; after a round, the writes left pending are committed too;
   * without a round the thoughts are untouched.
   */
  lemma CommitOutcome<L, S>(g: Graph<L, S>, state: map<L, S>, change: map<L, S>, thoughts: map<L, S>, n: nat)
    ensures var m := Rounds(g, Begin(state, change, thoughts), n);
      && m.state == state + thoughts + m.change
      && Submap(m.change, m.state)
      && state.Keys <= m.state.Keys
      && (n >= 1 ==> Submap(m.writes, m.change) && Submap(m.writes, m.state))
      && (n == 0 ==> m.thoughts == thoughts)
  {
    var m0 := Begin(state, change, thoughts);
    MergeAssociates(state, thoughts, change);
    RoundsCommitChange(g, m0, n, state + thoughts);
    RoundsKeepKeys(g, m0, n);
    if n >= 1 {
      RoundsLeaveCommittedWrites(g, m0, n);
    }
  }

  /**
   * `commit` as written does not consume the thoughts it merges: the first round reads them
   * back as its writes and merges them over the change. A lemma both written and thought of,
   * with no neuron, ends up committed and published with the thought, not the write.
   */
  lemma StaleThoughtBeatsWrite<L, S>(x: L, f: L, a: S, b: S, blank: S)
    ensures var g := Graph(map[x := Neuron(x, Concept(f, []), Deferred)], map[], blank);
      var m := Rounds(g, Begin(map[], map[x := a], map[x := b]), 1);
      && Begin(map[], map[x := a], map[x := b]).state[x] == a
      && x in m.state && m.state[x] == b
      && x in m.change && m.change[x] == b
  {
    var g: Graph<L, S> := Graph(map[x := Neuron(x, Concept(f, []), Deferred)], map[], blank);
    var m0 := Begin(map[], map[x := a], map[x := b]);
    AffectedByNothing<L, S>(map[]);
    assert Affected(g.connections, m0.writes) == {};
    ThinkNothing(g, m0.state, m0.thoughts);
    assert Round(g, m0) == Mind(m0.state + map[x := b], m0.change + map[x := b], map[], map[x := b]);
  }

  /** The start of `commit` with the merged thoughts consumed: they are folded in and cleared. */
  function BeginConsuming<L(==), S>(state: map<L, S>, change: map<L, S>, thoughts: map<L, S>): (m: Mind<L, S>)
    ensures m.thoughts == map[]
    ensures m.state == Begin(state, change, thoughts).state && m.writes == Begin(state, change, thoughts).writes
    ensures m.change == change
  {
    var b := Begin(state, change, thoughts);
    Mind(b.state, b.change, map[], b.writes)
  }

  /** A neuron that does not run leaves no thought when the thoughts start empty. */
  lemma ThinkFromNothing<L, S>(g: Graph<L, S>, fired: set<L>, state: map<L, S>, x: L)
    requires x !in fired
    ensures x !in Think(g, fired, state, map[])
  {
    assert Outcome(g, fired, state, map[], x) == None;
  }

  /**
   * With the thoughts consumed, a write wins: a written lemma that no neuron recomputes in
   * the first round still holds the written value, committed and in the change, after it.
   */
  lemma WriteWinsFirstRound<L, S>(g: Graph<L, S>, state: map<L, S>, change: map<L, S>, thoughts: map<L, S>, x: L)
    requires x in change && x !in Affected(g.connections, thoughts + change)
    ensures var m := Rounds(g, BeginConsuming(state, change, thoughts), 1);
      && x in m.state && m.state[x] == change[x]
      && x in m.change && m.change[x] == change[x]
  {
    var m0 := BeginConsuming(state, change, thoughts);
    ThinkFromNothing(g, Affected(g.connections, m0.writes), m0.state, x);
  }
}
