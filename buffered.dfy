/**
 * `Buffered`: a two-slot cell. Reads see the committed slot, writes go to the staged
 * slot, and `commit()` promotes the staged slot to committed.
 */
module Buffers {

  /**
   * A writable key path into a `V`, seen as a lens: `get` reads the field and `put`
   * returns the value with the field replaced.
   */
  datatype Lens<!V, !A> = Lens(get: V -> A, put: (V, A) -> V)

  /** Lens law: a field reads back what was put into it. */
  ghost predicate PutGet<V(!new), A(!new)>(lens: Lens<V, A>) {
    forall v, a :: lens.get(lens.put(v, a)) == a
  }

  class Buffered<V> {
    /** The first slot of the pair `__o`: what every getter reads. */
    var committed: V
    /** The second slot of `__o`: what every setter writes. */
    var staged: V

    /** `init(_:)`: both slots hold the initial value. */
    constructor (value: V)
      ensures committed == value && staged == value
    {
      committed, staged := value, value;
    }

    /** `committed`: a new cell holding the staged value in both slots; this cell is left as it is. */
    method Committed() returns (b: Buffered<V>)
      ensures fresh(b)
      ensures b.committed == staged && b.staged == staged
    {
      b := new Buffered(staged);
    }

    /**
     * `commit()`: both slots take the staged value, which is returned. Committing a settled
     * cell (both slots equal) returns its value and changes nothing, so a second commit
     * with no write in between is a no-op.
     */
    method Commit() returns (v: V)
      modifies this
      ensures v == old(staged)
      ensures committed == v && staged == v
      ensures old(committed) == old(staged) ==> committed == old(committed) && staged == old(staged)
    {
      committed, staged := staged, staged;
      v := committed;
    }

    /**
     * The whole-value getter `self[]`: it reads the committed slot, so it sees the last write
     * once the cell is settled and never sees a pending write.
     */
    function Value(): (r: V)
      reads this
      ensures r == committed
      ensures committed == staged ==> r == staged
      ensures committed != staged ==> r != staged
    {
      committed
    }

    /** The whole-value setter `self[] = v`: only the staged slot changes. */
    method SetValue(v: V)
      modifies this`staged
      ensures staged == v
      ensures Value() == old(Value())
    {
      staged := v;
    }

    /** The member getter `self[dynamicMember:]`: the field of what the whole-value getter reads. */
    function Member<A>(lens: Lens<V, A>): (r: A)
      reads this
      ensures r == lens.get(Value())
    {
      lens.get(committed)
    }

    /** The member setter: the field is replaced in the staged slot only. */
    method SetMember<A>(lens: Lens<V, A>, a: A)
      modifies this`staged
      ensures staged == lens.put(old(staged), a)
      ensures Value() == old(Value()) && Member(lens) == old(Member(lens))
    {
      staged := lens.put(staged, a);
    }
  }

  /**
   * A member write is invisible until the commit and visible after it: the read between
   * the two sees the old field, the read after the commit sees the written one.
   */
  method WriteCommitRead<V(!new), A(!new)>(b: Buffered<V>, lens: Lens<V, A>, a: A) returns (before: A, after: A)
    requires PutGet(lens)
    modifies b
    ensures before == old(b.Member(lens))
    ensures after == a && b.Member(lens) == a
    ensures b.committed == b.staged
  {
    b.SetMember(lens, a);
    before := b.Member(lens);
    var _ := b.Commit();
    after := b.Member(lens);
  }

  /**
   * `==`: both slots are compared. Equal cells read the same value, and a cell with a
   * pending write differs from every settled cell, even one holding its committed value.
   */
  predicate Same<V(==)>(lhs: Buffered<V>, rhs: Buffered<V>)
    reads lhs, rhs
    ensures Same(lhs, rhs) ==> lhs.Value() == rhs.Value() && lhs.staged == rhs.staged
    ensures lhs.staged != lhs.committed && rhs.staged == rhs.committed ==> !Same(lhs, rhs)
  {
    lhs.committed == rhs.committed && lhs.staged == rhs.staged
  }
}
