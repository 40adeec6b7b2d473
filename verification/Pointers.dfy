/** Pointers to the elements of the intrusive containers. */
module Pointers {

  /** NULL, or the address of an element together with its key: the place of the element in the
      order that the user's comparison defines, which never changes. */
  datatype Ref = Null | Elem(id: nat, key: int)

  /** The entries of elements that are not in `own` are as they were. */
  ghost predicate Apart<E>(m0: map<Ref, E>, m: map<Ref, E>, own: set<Ref>) {
    forall x :: x !in own ==> (x in m0 <==> x in m) && (x in m0 && x in m ==> m0[x] == m[x])
  }

  lemma ApartSame<E>(m: map<Ref, E>, own: set<Ref>)
    ensures Apart(m, m, own)
  {
  }

  lemma ApartUpdate<E>(m0: map<Ref, E>, m: map<Ref, E>, own: set<Ref>, x: Ref, e: E)
    requires Apart(m0, m, own) && x in own
    ensures Apart(m0, m[x := e], own)
  {
  }

  lemma ApartThen<E>(m0: map<Ref, E>, m1: map<Ref, E>, m2: map<Ref, E>, own: set<Ref>, some: set<Ref>)
    requires Apart(m0, m1, own) && Apart(m1, m2, some) && some <= own + {Null}
    requires Null in some ==> Null in own || (Null !in m1 && Null !in m2)
    ensures Apart(m0, m2, own)
  {
  }
}
