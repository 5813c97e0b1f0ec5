/**
 Facts about sequences that the proofs name rather than leave to be found.
 */
module Sequences {

  lemma Associative<T>(a: seq<T>, b: seq<T>, c: seq<T>)
    ensures a + (b + c) == a + b + c
  {
  }

  /** All but the last of a concatenation, and the last. */
  lemma ConcatFront<T>(p: seq<T>, q: seq<T>)
    requires q != []
    ensures var pq, last := p + q, |q| - 1;
            pq != [] && pq[..|pq| - 1] == p + q[..last] && pq[|pq| - 1] == q[last]
  {
  }

  /** Taking the front of a queue moves it to the end of what was taken. */
  lemma TakeFirst<T>(taken: seq<T>, queue: seq<T>)
    ensures queue != [] ==> taken + queue == taken + [queue[0]] + queue[1..]
  {
  }
}
