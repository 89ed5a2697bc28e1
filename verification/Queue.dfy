/** A first-in first-out queue made of two stacks (shared/datastruct/queue.go). */
module Queue {
  import opened Wrappers
  import opened Sequences

  function Reverse<T>(s: seq<T>): (r: seq<T>)
    ensures |r| == |s| && forall i :: 0 <= i < |s| ==> r[i] == s[|s| - 1 - i]
  {
    if s == [] then [] else [s[|s| - 1]] + Reverse(s[..|s| - 1])
  }

  // Cutting one element out of a slice.
  method Splice<T>(arr: seq<T>, i: nat) returns (r: seq<T>)
    requires i < |arr|
    ensures r == Without(arr, i)
  {
    if i < |arr| - 1 {
      r := arr[..i] + arr[i + 1..];
    } else {
      r := arr[..i];
    }
  }

  // The contents in order of arrival, when both stacks have their tops at the end.
  function Arrivals<T>(enqueued: seq<T>, dequeued: seq<T>): seq<T> {
    Reverse(dequeued) + enqueued
  }

  lemma CutDequeued<T>(enqueued: seq<T>, dequeued: seq<T>, i: nat)
    requires i < |dequeued|
    ensures Arrivals(enqueued, Without(dequeued, i)) == Without(Arrivals(enqueued, dequeued), |dequeued| - 1 - i)
    ensures Arrivals(enqueued, dequeued)[|dequeued| - 1 - i] == dequeued[i]
  {
  }

  lemma CutEnqueued<T>(enqueued: seq<T>, dequeued: seq<T>, i: nat)
    requires i < |enqueued|
    ensures Arrivals(Without(enqueued, i), dequeued) == Without(Arrivals(enqueued, dequeued), |dequeued| + i)
    ensures Arrivals(enqueued, dequeued)[|dequeued| + i] == enqueued[i]
  {
  }

  // The element that a deletion removes: the first match from the bottom of the dequeue stack, which
  // is the latest arrival there, and otherwise the first match in the enqueue stack.
  ghost predicate IsVictim<T>(enqueued: seq<T>, dequeued: seq<T>, eq: T -> bool, k: nat) {
    var all := Arrivals(enqueued, dequeued);
    && k < |all| && eq(all[k])
    && (if k < |dequeued| then forall j :: k < j < |dequeued| ==> !eq(all[j])
        else forall j :: 0 <= j < k ==> !eq(all[j]))
  }

  class Queue<T> {
    var enqueue: seq<T>
    var dequeue: seq<T>

    constructor ()
      ensures Contents() == []
    {
      enqueue, dequeue := [], [];
    }

    function Contents(): seq<T>
      reads this
    {
      Arrivals(enqueue, dequeue)
    }

    method Enqueue(n: T)
      modifies this
      ensures Contents() == old(Contents()) + [n]
      ensures dequeue == old(dequeue) && enqueue == old(enqueue) + [n]
    {
      enqueue := enqueue + [n];
    }

    method Clear()
      modifies this
      ensures Contents() == [] && enqueue == dequeue == []
    {
      dequeue := [];
      enqueue := [];
    }

    method Dequeue() returns (r: Option<T>)
      modifies this
      ensures old(Contents()) == [] ==> r == None && Contents() == []
      ensures old(Contents()) != [] ==> r == Some(old(Contents())[0]) && Contents() == old(Contents())[1..]
    {
      if |dequeue| == 0 {
        while |enqueue| > 0
          invariant Reverse(dequeue + Reverse(enqueue)) == old(Contents())
          decreases |enqueue|
        {
          var v := enqueue[|enqueue| - 1];
          assert dequeue + Reverse(enqueue) == (dequeue + [v]) + Reverse(enqueue[..|enqueue| - 1]);
          enqueue := enqueue[..|enqueue| - 1];
          dequeue := dequeue + [v];
          if |enqueue| == 0 {
            assert dequeue + Reverse(enqueue) == dequeue;
          }
        }
        assert dequeue + Reverse(enqueue) == dequeue;
      }
      if |dequeue| == 0 {
        return None;
      }
      r := Some(dequeue[|dequeue| - 1]);
      dequeue := dequeue[..|dequeue| - 1];
    }

    method IsInQueue(eq: T -> bool) returns (found: bool)
      ensures found <==> exists i :: 0 <= i < |Contents()| && eq(Contents()[i])
    {
      for i := 0 to |dequeue|
        invariant forall j :: 0 <= j < i ==> !eq(dequeue[j])
      {
        if eq(dequeue[i]) {
          assert eq(Contents()[|dequeue| - 1 - i]);
          return true;
        }
      }
      for i := 0 to |enqueue|
        invariant forall j :: 0 <= j < i ==> !eq(enqueue[j])
      {
        if eq(enqueue[i]) {
          assert eq(Contents()[|dequeue| + i]);
          return true;
        }
      }
      return false;
    }

    method Len() returns (n: nat)
      ensures n == |Contents()|
    {
      n := |dequeue| + |enqueue|;
    }

    // Removes one matching element and keeps the order of the others. The element is the one on which
    // the search function was called last, None if it never matched.
    method Del(eq: T -> bool) returns (deleted: Option<T>, ghost k: nat)
      modifies this
      ensures deleted.Some? <==> exists i :: 0 <= i < |old(Contents())| && eq(old(Contents())[i])
      ensures deleted.Some? ==>
                && IsVictim(old(enqueue), old(dequeue), eq, k) && deleted.value == old(Contents())[k]
                && Contents() == Without(old(Contents()), k)
      ensures deleted.None? ==> enqueue == old(enqueue) && dequeue == old(dequeue)
    {
      k := 0;
      for i := 0 to |dequeue|
        invariant enqueue == old(enqueue) && dequeue == old(dequeue)
        invariant forall j :: 0 <= j < i ==> !eq(dequeue[j])
      {
        if eq(dequeue[i]) {
          k := |dequeue| - 1 - i;
          CutDequeued(enqueue, dequeue, i);
          ghost var all := Contents();
          forall j | k < j < |dequeue| ensures !eq(all[j]) {
            assert all[j] == dequeue[|dequeue| - 1 - j];
          }
          deleted := Some(dequeue[i]);
          dequeue := Splice(dequeue, i);
          return;
        }
      }
      for i := 0 to |enqueue|
        invariant enqueue == old(enqueue) && dequeue == old(dequeue)
        invariant forall j :: 0 <= j < |dequeue| ==> !eq(dequeue[j])
        invariant forall j :: 0 <= j < i ==> !eq(enqueue[j])
      {
        if eq(enqueue[i]) {
          k := |dequeue| + i;
          CutEnqueued(enqueue, dequeue, i);
          ghost var all := Contents();
          forall j | 0 <= j < k ensures !eq(all[j]) {
            if j < |dequeue| {
              assert all[j] == dequeue[|dequeue| - 1 - j];
            } else {
              assert all[j] == enqueue[j - |dequeue|];
            }
          }
          deleted := Some(enqueue[i]);
          enqueue := Splice(enqueue, i);
          return;
        }
      }
      deleted := None;
    }
  }
}
