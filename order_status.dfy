/** The order lifecycle: the fixed, ordered list of statuses and the rule
    that a status update may only move one step forward in it. */
module OrderStatus {

  import opened Common

  /** `ORDER_STATUSES`, in lifecycle order. */
  const Statuses: seq<string> := ["Placed", "Accepted", "Out for Delivery", "Delivered"]

  /** Python's `list.index`: the position of the first occurrence of `x`. */
  function IndexOf(s: seq<string>, x: string): (i: nat)
    requires x in s
    ensures i < |s| && s[i] == x
    ensures forall j :: 0 <= j < i ==> s[j] != x
  {
    if s[0] == x then 0 else 1 + IndexOf(s[1..], x)
  }

  /** The four statuses are pairwise different, so each has exactly one index. */
  lemma StatusesDistinct()
    ensures forall i, j :: 0 <= i < j < |Statuses| ==> Statuses[i] != Statuses[j]
  {
  }

  /** Looking up the status at position `k` gives back `k`. */
  lemma IndexOfAt(k: nat)
    requires k < |Statuses|
    ensures IndexOf(Statuses, Statuses[k]) == k
  {
  }

  /** The transition check: the new status's index is one more than the current one's. */
  predicate IsLegalTransition(current: string, next: string)
    requires current in Statuses && next in Statuses
  {
    IndexOf(Statuses, next) == IndexOf(Statuses, current) + 1
  }

  /** The status that follows `s` in the lifecycle; none after the last one. */
  function Successor(s: string): (r: Option<string>)
    requires s in Statuses
    ensures r.None? <==> s == "Delivered"
    ensures r.Some? ==> r.value in Statuses && r.value != s
  {
    var i := IndexOf(Statuses, s);
    StatusesDistinct();
    if i + 1 < |Statuses| then Some(Statuses[i + 1]) else None
  }

  /** A transition is accepted exactly when it names the successor of the
      current status: the accepted moves are a function of the current status. */
  lemma LegalIffSuccessor(current: string, next: string)
    requires current in Statuses && next in Statuses
    ensures IsLegalTransition(current, next) <==> Successor(current) == Some(next)
  {
  }

  /** The accepted transitions are exactly Placed -> Accepted,
      Accepted -> Out for Delivery and Out for Delivery -> Delivered. */
  lemma LegalTransitionsEnumerated(current: string, next: string)
    requires current in Statuses && next in Statuses
    ensures IsLegalTransition(current, next) <==>
      || (current == "Placed" && next == "Accepted")
      || (current == "Accepted" && next == "Out for Delivery")
      || (current == "Out for Delivery" && next == "Delivered")
  {
  }

  /** No skipping, no going back, no self-transition, nothing after Delivered
      and nothing back into Placed. */
  lemma LegalTransitionMovesOneForward(current: string, next: string)
    requires current in Statuses && next in Statuses
    requires IsLegalTransition(current, next)
    ensures IndexOf(Statuses, next) > IndexOf(Statuses, current)
    ensures current != next
    ensures current != "Delivered" && next != "Placed"
  {
  }
}
