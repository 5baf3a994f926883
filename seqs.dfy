/** Small facts about sequences of paths, used by the rename pass and the
    template registry. */
module Seqs {

  /** No element occurs twice. */
  predicate NoDups(s: seq<string>) {
    forall i, j :: 0 <= i < j < |s| ==> s[i] != s[j]
  }

  /** The elements of `s`, as a set. */
  function Elems(s: seq<string>): (r: set<string>)
    ensures forall x :: x in r <==> x in s
    ensures r == {} ==> s == []
  {
    assert s != [] ==> s[0] in s;
    set x | x in s
  }

  /** Appending a new element keeps the sequence free of duplicates and
      adds it to the element set. */
  lemma ElemsSnoc(s: seq<string>, x: string)
    requires NoDups(s) && x !in s
    ensures NoDups(s + [x]) && Elems(s + [x]) == Elems(s) + {x}
  {
    assert forall i :: 0 <= i < |s| ==> (s + [x])[i] == s[i];
  }

  lemma AppendAssoc(a: seq<string>, b: seq<string>, c: seq<string>)
    ensures (a + b) + c == a + (b + c)
  {
  }

  /** Taking one element out of the pending set `todo` adds it to the done
      part of `hits` exactly when it is in `hits`. */
  lemma DoneStep(hits: set<string>, todo: set<string>, x: string)
    requires x in todo
    ensures hits - (todo - {x}) == (hits - todo) + (if x in hits then {x} else {})
  {
  }
}
