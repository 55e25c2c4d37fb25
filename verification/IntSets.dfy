/** Small facts about sets of descriptors, kept apart so that each is proved with little in scope. */
module IntSets {

  /** The watched set when a connection joins. */
  lemma WatchedWith(listenfd: int, live: set<int>, maxfd: int, allset: set<int>, connfd: int)
    requires listenfd !in live && allset == {listenfd} + live && connfd !in allset
    requires forall fd :: fd in allset ==> fd <= maxfd
    ensures allset + {connfd} == {listenfd} + (live + {connfd}) && listenfd !in live + {connfd}
    ensures forall fd :: fd in allset + {connfd} ==> fd <= (if connfd > maxfd then connfd else maxfd)
  {
  }

  /** The watched set when a client leaves. */
  lemma WatchedWithout(listenfd: int, live: set<int>, allset: set<int>, fd: int)
    requires allset == {listenfd} + live && fd != listenfd
    ensures allset - {fd} == {listenfd} + (live - {fd})
  {
  }
}
