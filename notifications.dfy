/** Logs of values sent to subjects (Combine's `send`), as seen by their subscribers. */
module Notifications {

  /**
   * `log` sends exactly the entries of `expected`: every entry is sent once, with
   * its value, and nothing else is sent (the order is left open).
   */
  ghost predicate Notified<P, A>(log: seq<(P, A)>, expected: map<P, A>) {
    && (forall i :: 0 <= i < |log| ==> log[i].0 in expected && log[i].1 == expected[log[i].0])
    && (forall p :: p in expected ==> exists i :: 0 <= i < |log| && log[i].0 == p)
    && (forall i, j :: 0 <= i < j < |log| ==> log[i].0 != log[j].0)
  }

  /** Sending one more subject its value extends what has been notified by that one entry. */
  lemma NotifiedAppend<P, A>(log: seq<(P, A)>, expected: map<P, A>, p: P, x: A)
    requires Notified(log, expected) && p !in expected
    ensures Notified(log + [(p, x)], expected[p := x])
  {
    var log' := log + [(p, x)];
    var expected' := expected[p := x];
    forall i | 0 <= i < |log'|
      ensures log'[i].0 in expected' && log'[i].1 == expected'[log'[i].0]
    {
      if i < |log| {
        assert log'[i] == log[i];
      }
    }
    forall i, j | 0 <= i < j < |log'| ensures log'[i].0 != log'[j].0 {
      assert log'[i] == log[i];
      if j < |log| {
        assert log'[j] == log[j];
      }
    }
    forall q | q in expected'
      ensures exists i :: 0 <= i < |log'| && log'[i].0 == q
    {
      if q == p {
        assert log'[|log|].0 == q;
      } else {
        var i :| 0 <= i < |log| && log[i].0 == q;
        assert log'[i].0 == q;
      }
    }
  }

  /** The values the subjects hold once each existing subject is sent its published value; no subject is created. */
  function Publish<P(==), A>(subjects: map<P, A>, published: map<P, A>): (r: map<P, A>)
    ensures r.Keys == subjects.Keys
    ensures forall k :: k in subjects && k in published ==> r[k] == published[k]
    ensures forall k :: k in subjects && k !in published ==> r[k] == subjects[k]
  {
    map k | k in subjects :: if k in published then published[k] else subjects[k]
  }

  /** The sends that publishing makes: one per published key that has a subject. */
  function Due<P(==), A>(subjects: map<P, A>, published: map<P, A>): (r: map<P, A>)
    ensures r.Keys == subjects.Keys * published.Keys
    ensures forall k :: k in r ==> r[k] == published[k]
  {
    map k | k in published && k in subjects :: published[k]
  }

  /**
   * Publishing one more key: a subject for it takes the value and gets one more send;
   * without a subject nothing changes.
   */
  lemma PublishStep<P, A>(subjects: map<P, A>, published: map<P, A>, k: P, v: A)
    requires k !in published
    ensures k !in Due(subjects, published)
    ensures k in subjects ==>
      && Publish(subjects, published[k := v]) == Publish(subjects, published)[k := v]
      && Due(subjects, published[k := v]) == Due(subjects, published)[k := v]
    ensures k !in subjects ==>
      && Publish(subjects, published[k := v]) == Publish(subjects, published)
      && Due(subjects, published[k := v]) == Due(subjects, published)
  {
  }
}
