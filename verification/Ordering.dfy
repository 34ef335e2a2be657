/** Which of two events is the more recent one. */
module Ordering {

  /** Go compares strings byte by byte. */
  predicate Less(a: string, b: string) {
    b != [] && (a == [] || a[0] < b[0] || (a[0] == b[0] && Less(a[1..], b[1..])))
  }

  lemma {:induction false} LessIsTotal(a: string, b: string)
    ensures !(Less(a, b) && Less(b, a))
    ensures Less(a, b) || Less(b, a) || a == b
    ensures !Less(a, a)
  {
    if a != [] {
      LessIsTotal(a[1..], if b == [] then [] else b[1..]);
      if b != [] && a[0] == b[0] && a[1..] == b[1..] {
        assert a == [a[0]] + a[1..] && b == [b[0]] + b[1..];
      }
    }
  }

  lemma {:induction false} LessIsTransitive(a: string, b: string, c: string)
    requires Less(a, b) && Less(b, c)
    ensures Less(a, c)
  {
    if a != [] && a[0] == b[0] && b[0] == c[0] {
      LessIsTransitive(a[1..], b[1..], c[1..]);
    }
  }

  function IsMoreRecentEvent(oldHash: string, oldTimestamp: int, recentHash: string, recentTimestamp: int): bool {
    if oldTimestamp < recentTimestamp then true
    else if oldTimestamp > recentTimestamp then false
    else if Less(oldHash, recentHash) then true
    else if Less(recentHash, oldHash) then false
    else false
  }

  /** A strict total order on (timestamp, hash). */
  lemma MoreRecentIsStrictTotalOrder(h0: string, t0: int, h1: string, t1: int, h2: string, t2: int)
    ensures !IsMoreRecentEvent(h0, t0, h0, t0)
    ensures IsMoreRecentEvent(h0, t0, h1, t1) ==> !IsMoreRecentEvent(h1, t1, h0, t0)
    ensures IsMoreRecentEvent(h0, t0, h1, t1) || IsMoreRecentEvent(h1, t1, h0, t0) || (h0 == h1 && t0 == t1)
    ensures IsMoreRecentEvent(h0, t0, h1, t1) && IsMoreRecentEvent(h1, t1, h2, t2) ==> IsMoreRecentEvent(h0, t0, h2, t2)
  {
    LessIsTotal(h0, h1);
    LessIsTotal(h1, h2);
    LessIsTotal(h0, h2);
    if Less(h0, h1) && Less(h1, h2) {
      LessIsTransitive(h0, h1, h2);
    }
  }

  /** IsMoreRecent decides like IsMoreRecentEvent unless the current state names no event and the times tie. */
  method IsMoreRecent(currentEventId: string, currentHash: string, currentTimestamp: int,
                      eventHash: string, eventTimestamp: int, markedAsSynced: bool)
    returns (isMoreRecent: bool, markAsSynced: bool)
    ensures currentEventId != "" || currentTimestamp != eventTimestamp ==>
      isMoreRecent == IsMoreRecentEvent(currentHash, currentTimestamp, eventHash, eventTimestamp) &&
        markAsSynced == markedAsSynced
    ensures currentEventId == "" && currentTimestamp == eventTimestamp ==> !isMoreRecent && !markAsSynced
  {
    isMoreRecent := false;
    markAsSynced := markedAsSynced;
    if currentTimestamp < eventTimestamp {
      isMoreRecent := true;
    }
    if currentTimestamp > eventTimestamp {
      isMoreRecent := false;
    }
    if currentTimestamp == eventTimestamp {
      if currentEventId == "" {
        markAsSynced := false;
      } else {
        LessIsTotal(currentHash, eventHash);
        if Less(currentHash, eventHash) {
          isMoreRecent := true;
        }
        if Less(eventHash, currentHash) {
          isMoreRecent := false;
        }
      }
    }
  }
}
