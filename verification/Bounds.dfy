/** Ends of key ranges, and where a range begins inside a leaf. */
module Bounds {
  import opened Pages

  /** One end of a key range. */
  datatype Bound = Unbounded | Included(key: Key) | Excluded(key: Key)

  predicate AfterStart(b: Bound, k: Key) {
    match b
    case Unbounded => true
    case Included(start) => start <= k
    case Excluded(start) => start < k
  }

  predicate BeforeEnd(b: Bound, k: Key) {
    match b
    case Unbounded => true
    case Included(end) => k <= end
    case Excluded(end) => k < end
  }

  /** First record of a leaf at or after the sought key. */
  function SeekIndex(es: seq<Entry>, k: Key, inclusive: bool): (i: nat)
    ensures i <= |es|
  {
    match Search(es, k)
    case Found(i) => if inclusive then i else i + 1
    case Missing(i) => i
  }

  /** The records from the seek position on are exactly those in bounds. */
  lemma SeekIndexMeaning(es: seq<Entry>, k: Key, inclusive: bool)
    requires SortedEntries(es)
    ensures var i := SeekIndex(es, k, inclusive);
            forall j :: 0 <= j < |es| ==> (i <= j <==> if inclusive then k <= es[j].key else k < es[j].key)
  {
  }

  /** The first position of a leaf past `b`. */
  function BoundIndex(es: seq<Entry>, b: Bound): (i: nat)
    ensures i <= |es|
  {
    match b
    case Unbounded => 0
    case Included(k) => SeekIndex(es, k, true)
    case Excluded(k) => SeekIndex(es, k, false)
  }

  lemma BoundIndexMeaning(es: seq<Entry>, b: Bound)
    requires SortedEntries(es)
    ensures forall j :: 0 <= j < |es| ==> (BoundIndex(es, b) <= j <==> AfterStart(b, es[j].key))
  {
  }
}
