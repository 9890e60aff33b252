/** The `java.util.PriorityQueue<MusicBand>` both managers store bands in, seen through the
    operations they use. The queue is a sequence in iteration order; its head is a band
    with the smallest ID under `compareTo`. Which of several equal-ID bands is the head,
    and the order of the other elements, is heap layout that the model leaves open. */
module BandQueue {
  import opened Wrappers
  import opened MusicBandModel

  /** A band with the smallest ID in a non-empty queue. */
  function MinById(s: seq<MusicBand>): (m: MusicBand)
    requires |s| > 0
    ensures m in s
    ensures forall i :: 0 <= i < |s| ==> m.id <= s[i].id
  {
    if |s| == 1 then s[0]
    else
      var rest := MinById(s[1..]);
      if CompareTo(s[0], rest) <= 0 then s[0] else rest
  }

  /** `peek()`: the head, or `None` when the queue is empty. */
  function Peek(s: seq<MusicBand>): (r: Option<MusicBand>)
    ensures r.None? <==> |s| == 0
    ensures r.Some? ==> r.value in s && forall i :: 0 <= i < |s| ==> r.value.id <= s[i].id
  {
    if |s| == 0 then None else Some(MinById(s))
  }

  /** `remove(o)`: takes out one occurrence of `x` (the first in iteration order) if there
      is one; the other elements stay. */
  function RemoveOne(s: seq<MusicBand>, x: MusicBand): (r: seq<MusicBand>)
    ensures multiset(r) == multiset(s) - multiset{x}
    ensures x in s ==> |r| == |s| - 1
    ensures x !in s ==> r == s
  {
    if s == [] then []
    else if s[0] == x then
      assert s == [x] + s[1..];
      s[1..]
    else
      assert s == [s[0]] + s[1..];
      [s[0]] + RemoveOne(s[1..], x)
  }
}
