/** Buffered Go channels: a queue of bounded capacity that can be closed once. */
module Channels {
  datatype Chan<T> = Chan(buf: seq<T>, cap: nat, closed: bool)
  {
    predicate Full()
    {
      |buf| >= cap
    }

    function Push(x: T): Chan<T>
    {
      this.(buf := buf + [x])
    }

    function Pop(): Chan<T>
      requires buf != []
    {
      this.(buf := buf[1..])
    }
  }

  /** Occurrences of x in a queue. */
  ghost function Count<T>(s: seq<T>, x: T): nat
  {
    multiset(s)[x]
  }

  lemma CountPush<T>(s: seq<T>, y: T, x: T)
    ensures Count(s + [y], x) == Count(s, x) + if y == x then 1 else 0
  {
  }

  lemma CountPop<T>(s: seq<T>, x: T)
    requires s != []
    ensures Count(s, x) == Count(s[1..], x) + if s[0] == x then 1 else 0
  {
    assert s == [s[0]] + s[1..];
  }
}
