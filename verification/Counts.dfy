/** Reference counts as finite maps, and what adding or dropping one reference to each element
    of a set makes of them, in whatever order the elements are visited. */
module Counts {

  function Count<T>(refs: map<T, int>, t: T): int {
    if t in refs then refs[t] else 0
  }

  function IncAll<T>(refs: map<T, int>, s: set<T>): map<T, int> {
    map t | t in refs.Keys + s :: Count(refs, t) + if t in s then 1 else 0
  }

  /** Elements whose count would reach zero are dropped. */
  function DecAll<T>(refs: map<T, int>, s: set<T>): map<T, int> {
    map t | t in refs && (t in s ==> refs[t] > 1) :: refs[t] - if t in s then 1 else 0
  }

  /** The elements of s whose last reference is being dropped. */
  function Exhausted<T>(refs: map<T, int>, s: set<T>): set<T> {
    set t | t in s && Count(refs, t) <= 1
  }

  lemma IncStep<T>(refs: map<T, int>, s: set<T>, t: T)
    requires t !in s
    ensures IncAll(refs, s + {t}) == IncAll(refs, s)[t := Count(IncAll(refs, s), t) + 1]
  {
  }

  lemma DecStep<T>(refs: map<T, int>, s: set<T>, t: T)
    requires t !in s
    ensures var d := DecAll(refs, s);
            DecAll(refs, s + {t}) == if Count(d, t) > 1 then d[t := Count(d, t) - 1] else d - {t}
  {
    var d := DecAll(refs, s);
    assert t in refs <==> t in d;
    assert (if Count(d, t) > 1 then d[t := Count(d, t) - 1] else d - {t}).Keys == DecAll(refs, s + {t}).Keys;
  }

  lemma ExhaustedStep<T>(refs: map<T, int>, s: set<T>, t: T)
    requires t !in s
    ensures Exhausted(refs, s + {t})
         == Exhausted(refs, s) + if Count(DecAll(refs, s), t) > 1 then {} else {t}
  {
    assert Count(DecAll(refs, s), t) == Count(refs, t);
  }

  lemma DecKeys<T>(refs: map<T, int>, s: set<T>)
    ensures DecAll(refs, s).Keys == refs.Keys - Exhausted(refs, s)
  {
  }
}
