/** Splicing a list that a loop walks from the back: the list is the unvisited part p
    followed by the part already processed, and the loop removes or replaces the last
    element of p. Used by the backward splice loops of the games. */
module Splice {

  /** Removing the last element of the unvisited part p of a list p + done. */
  lemma DropAt<T>(p: seq<T>, done: seq<T>, i: nat)
    requires |p| == i + 1
    ensures (p + done)[..i] + (p + done)[i + 1..] == p[..i] + done
  {
    assert (p + done)[..i] == p[..i];
    assert (p + done)[i + 1..] == done;
  }

  /** Replacing the last element of the unvisited part p of a list p + done. */
  lemma ReplaceAt<T>(p: seq<T>, done: seq<T>, i: nat, x: T)
    requires |p| == i + 1
    ensures (p + done)[i := x] == p[..i] + ([x] + done)
  {
    assert (p + done)[i := x] == p[..i] + [x] + done;
  }
}
