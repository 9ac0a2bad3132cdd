/** The evidence an action refers to, and when it is fresh enough to act on. */
module EvidenceItems {
  import opened Domain

  /** An evidence item: when it was observed, and its completeness flag if its metadata has one. */
  datatype EvidenceItem = EvidenceItem(id: Id, observedAt: Option<int>, complete: Option<bool>)

  datatype Evidence = Evidence(items: seq<EvidenceItem>, references: seq<Id>, maxAge: int)

  predicate Usable(item: EvidenceItem, maxAge: int, now: int) {
    item.observedAt.Some? && now - item.observedAt.value <= maxAge && item.complete != Some(false)
  }

  /** Among the first n items, the k-th is the last one with the id. */
  predicate LastWithId(items: seq<EvidenceItem>, n: nat, k: int, id: Id)
    requires n <= |items|
  {
    0 <= k < n && items[k].id == id && forall j :: k < j < n ==> items[j].id != id
  }

  predicate Supported(items: seq<EvidenceItem>, reference: Id, maxAge: int, now: int) {
    exists k :: 0 <= k < |items| && LastWithId(items, |items|, k, reference) && Usable(items[k], maxAge, now)
  }

  /** There are references, and each names an item that is recent and not incomplete. */
  predicate Current(evidence: Evidence, now: int) {
    && evidence.references != []
    && forall k :: 0 <= k < |evidence.references| ==> Supported(evidence.items, evidence.references[k], evidence.maxAge, now)
  }
}
