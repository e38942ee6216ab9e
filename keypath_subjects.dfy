/**
 * `BufferedKeyPathSubjects`: a `Buffered` value whose fields are written by key path.
 * It remembers which paths were written since the last commit and, on commit, sends the
 * new value of those fields, and only those, to their subjects.
 */
module KeyPathSubjects {
  import opened Buffers
  import opened Notifications

  /**
   * Distinct key paths address disjoint fields: writing one leaves the others as they
   * were. Overlapping Swift key paths (`\.a` and `\.a.b`) do not have this property.
   */
  ghost predicate Independent<V(!new), P(!new), A(!new)>(at: P -> Lens<V, A>) {
    forall p, q, v, a :: p != q ==> at(q).get(at(p).put(v, a)) == at(q).get(v)
  }

  /**
   * Key paths are modelled by a family `at` of lenses indexed by `P`; all fields
   * share the projection type `A`. Each subject (`CurrentValueSubject`) is modelled
   * by the value it currently holds.
   */
  class BufferedKeyPathSubjects<V(!new), P(==, !new), A(!new)> {
    const at: P -> Lens<V, A>
    const value: Buffered<V>
    var subjects: map<P, A>
    var updated: set<P>
    /** Every value sent to a subject so far, with the subject's path. */
    ghost var sent: seq<(P, A)>

    /** With nothing written since the last commit, the two slots agree. */
    ghost predicate Valid()
      reads this, value
    {
      updated == {} ==> value.committed == value.staged
    }

    /** A path that was not written since the last commit reads the same in both slots. */
    ghost predicate Coherent()
      reads this, value
    {
      forall p :: p !in updated ==> at(p).get(value.staged) == at(p).get(value.committed)
    }

    /** Every subject holds the committed value of its field. */
    ghost predicate Synced()
      reads this, value
    {
      forall p :: p in subjects ==> subjects[p] == at(p).get(value.committed)
    }

    /** `init(_:)`: a fresh buffer of `v`, no subject and nothing written. */
    constructor (v: V, at: P -> Lens<V, A>)
      ensures this.at == at && fresh(value)
      ensures value.committed == v && value.staged == v
      ensures subjects == map[] && updated == {} && sent == []
      ensures Valid() && Coherent() && Synced()
    {
      this.at := at;
      value := new Buffered(v);
      subjects, updated, sent := map[], {}, [];
    }

    /**
     * The member getter: the field of the committed value. A field not written since the
     * last commit reads the same as in the staged value.
     */
    function Get(p: P): (r: A)
      reads this, value
      ensures r == at(p).get(value.committed)
      ensures Coherent() && p !in updated ==> r == at(p).get(value.staged)
    {
      value.Member(at(p))
    }

    /** The member setter: the field changes in the staged value only, and its path is recorded. */
    method Set(p: P, a: A)
      modifies this`updated, value`staged
      ensures value.staged == at(p).put(old(value.staged), a)
      ensures value.committed == old(value.committed) && Get(p) == old(Get(p))
      ensures updated == old(updated) + {p}
      ensures Valid() && Synced() == old(Synced())
      ensures Independent(at) && old(Coherent()) ==> Coherent()
    {
      value.SetMember(at(p), a);
      updated := updated + {p};
    }

    /**
     * `commit()`: the buffer is committed, the set of written paths is emptied, and
     * exactly the written paths that have a subject are sent the new committed value of
     * their field. Without a write since the last commit nothing is sent and the value
     * stays as it was.
     */
    method Commit()
      modifies this`updated, this`subjects, this`sent, value
      ensures updated == {}
      ensures value.committed == old(value.staged) && value.staged == old(value.staged)
      ensures subjects == Publish(old(subjects), Fields(old(updated), value.committed))
      ensures |sent| >= |old(sent)| && sent[..|old(sent)|] == old(sent)
      ensures Notified(sent[|old(sent)|..], Due(old(subjects), Fields(old(updated), value.committed)))
      ensures old(updated) == {} ==> sent == old(sent) && subjects == old(subjects)
      ensures old(updated) == {} && old(Valid()) ==> value.committed == old(value.committed)
      ensures Valid() && Coherent()
      ensures old(Synced() && Coherent()) ==> Synced()
    {
      var touched := updated;
      updated := {};
      var v := value.Commit();
      Send(touched, v);
    }

    /** The fields of `v` at the paths in `done`. */
    ghost function Fields(done: set<P>, v: V): map<P, A> {
      map p | p in done :: at(p).get(v)
    }

    /** The loop of `commit()`: each touched path that has a subject is sent its field of `v`. */
    method Send(touched: set<P>, v: V)
      modifies this`subjects, this`sent
      ensures subjects == Publish(old(subjects), Fields(touched, v))
      ensures |sent| >= |old(sent)| && sent[..|old(sent)|] == old(sent)
      ensures Notified(sent[|old(sent)|..], Due(old(subjects), Fields(touched, v)))
      ensures touched == {} ==> sent == old(sent)
    {
      var todo := touched;
      ghost var subjects0, sent0 := subjects, sent;
      while todo != {}
        invariant todo <= touched
        invariant subjects == Publish(subjects0, Fields(touched - todo, v))
        invariant |sent| >= |sent0| && sent[..|sent0|] == sent0
        invariant Notified(sent[|sent0|..], Due(subjects0, Fields(touched - todo, v)))
        invariant touched == {} ==> sent == sent0
        decreases todo
      {
        var p :| p in todo;
        ghost var done := touched - todo;
        assert touched - (todo - {p}) == done + {p};
        var x := at(p).get(v);
        assert p !in Fields(done, v);
        assert Fields(done + {p}, v) == Fields(done, v)[p := x];
        PublishStep(subjects0, Fields(done, v), p, x);
        if p in subjects {
          NotifiedAppend(sent[|sent0|..], Due(subjects0, Fields(done, v)), p, x);
          assert (sent + [(p, x)])[|sent0|..] == sent[|sent0|..] + [(p, x)];
          subjects := subjects[p := x];
          sent := sent + [(p, x)];
        }
        todo := todo - {p};
      }
      assert touched - todo == touched;
    }

    /**
     * The lazy subject of a path (`published`): the first access creates a subject seeded
     * with the committed value of the field and keeps it; later accesses return the kept
     * subject and add nothing.
     */
    method Subject(p: P) returns (a: A)
      modifies this`subjects
      ensures p in old(subjects) ==> subjects == old(subjects) && a == old(subjects)[p]
      ensures p !in old(subjects) ==> subjects == old(subjects)[p := Get(p)] && a == Get(p)
      ensures old(Synced()) ==> Synced() && a == Get(p)
    {
      if p !in subjects {
        subjects := subjects[p := Get(p)];
      }
      a := subjects[p];
    }
  }
}
