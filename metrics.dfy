/** The two counters each store keeps in the metric registry: one hit
    counter per title and one counter of requests for missing titles. The
    registry itself is not modelled; the counters are plain maps and
    numbers. */
module Metrics {
  /** The hit counters after `increaseHitCounter(title)`: the counter of
      `title` goes up by one, created at zero if it did not exist, and every
      other counter keeps its value. */
  function CountHit(hits: map<string, nat>, title: string): (r: map<string, nat>)
    ensures r.Keys == hits.Keys + {title}
    ensures r[title] == Hits(hits, title) + 1
    ensures forall k :: k in hits && k != title ==> r[k] == hits[k]
  {
    hits[title := Hits(hits, title) + 1]
  }

  /** The value of the counter of `title`; a counter never incremented reads zero. */
  function Hits(hits: map<string, nat>, title: string): nat
  {
    if title in hits then hits[title] else 0
  }

  /** Counting a hit adds one to that title's count and leaves the others. */
  lemma CountHitCounts(hits: map<string, nat>, title: string, other: string)
    ensures Hits(CountHit(hits, title), title) == Hits(hits, title) + 1
    ensures other != title ==> Hits(CountHit(hits, title), other) == Hits(hits, other)
  {
  }
}
