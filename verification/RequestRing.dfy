/**
 The volatile request queue: a ring buffer with removal from the middle that behaves as a list.
 */
module RequestRing {
  import opened Wrappers
  import opened Requests
  import opened Cyclic
  import opened Selection

  /** The position of element k in a ring of n slots. */
  function Slot(front: nat, k: nat, n: nat): nat
    requires front < n && k <= n
  {
    if front + k < n then front + k else front + k - n
  }

  lemma SlotIsModular(front: nat, k: nat, n: nat)
    requires front < n && k <= n && front + k < 2 * n
    ensures (front + k) % n == Slot(front, k, n)
  {
    WrapOnce(front + k, n);
  }

  class VolatileRequestQueue {
    const requests: array<Option<Request>>
    var front: nat
    var len: nat

    function At(k: nat): Option<Request>
      requires front < requests.Length && k <= requests.Length
      reads this`front, requests
    {
      requests[Slot(front, k, requests.Length)]
    }

    /** Slots of the queue hold requests, all other slots are empty. */
    ghost predicate Valid()
      reads this, requests
    {
      && front < requests.Length && len <= requests.Length
      && (forall k :: 0 <= k < len ==> At(k).Some?)
      && (forall k :: len <= k < requests.Length ==> At(k).None?)
    }

    /** The queued requests, oldest first. */
    ghost function Contents(): (s: seq<Request>)
      requires Valid()
      reads this, requests
      ensures |s| == len
      ensures forall k :: 0 <= k < len ==> s[k] == At(k).value
    {
      seq(len, k requires 0 <= k < len && Valid() reads this, requests => At(k).value)
    }

    constructor (capacity: nat)
      requires 0 < capacity
      ensures Valid() && Contents() == [] && requests.Length == capacity && fresh(requests)
    {
      requests := new Option<Request>[capacity](_ => None);
      front, len := 0, 0;
    }

    method Index(k: nat) returns (index: nat)
      requires front < requests.Length && k <= requests.Length
      ensures index == Slot(front, k, requests.Length)
    {
      SlotIsModular(front, k, requests.Length);
      index := (front + k) % requests.Length;
    }

    /** Write element k; all other elements stay. */
    method Put(k: nat, v: Option<Request>)
      requires front < requests.Length && k < requests.Length
      modifies requests
      ensures At(k) == v
      ensures forall i :: 0 <= i < requests.Length && i != k ==> At(i) == old(At(i))
    {
      var index := Index(k);
      requests[index] := v;
    }

    /** Drop the oldest request. */
    method DropFront()
      requires Valid() && len > 0
      modifies this`front, this`len, requests
      ensures Valid() && Contents() == old(Contents()[1..])
    {
      Put(0, None);
      label Emptied:
      front := Index(1);
      len := len - 1;
      assert forall k :: 0 <= k < requests.Length - 1 ==> At(k) == old@Emptied(At(k + 1));
      assert At(requests.Length - 1) == old@Emptied(At(0));
    }

    /** Close the gap that element p leaves by moving the later elements, one slot each. */
    method ShiftDown(p: nat)
      requires front < requests.Length && p < len <= requests.Length && At(p).None?
      modifies requests
      ensures forall k :: 0 <= k < p ==> At(k) == old(At(k))
      ensures forall k :: p <= k < len - 1 ==> At(k) == old(At(k + 1))
      ensures At(len - 1).None?
      ensures forall k :: len <= k < requests.Length ==> At(k) == old(At(k))
    {
      var i := p;
      while i < len - 1
        invariant p <= i <= len - 1
        invariant forall k :: 0 <= k < p ==> At(k) == old(At(k))
        invariant forall k :: p <= k < i ==> At(k) == old(At(k + 1))
        invariant At(i).None?
        invariant forall k :: i < k < requests.Length ==> At(k) == old(At(k))
      {
        Put(i, At(i + 1));
        Put(i + 1, None);
        i := i + 1;
      }
    }

    /** Drop the request at position p. */
    method RemoveAt(p: nat)
      requires Valid() && p < len
      modifies this`front, this`len, requests
      ensures Valid() && Contents() == old(Contents()[..p] + Contents()[p + 1..])
    {
      var index := Index(p);
      if index == front {
        DropFront();
      } else {
        Put(p, None);
        ShiftDown(p);
        label Shifted:
        len := len - 1;
        assert forall k :: 0 <= k < requests.Length ==> At(k) == old@Shifted(At(k));
      }
    }

    /** Call the timeout listeners of the request at position p and drop it, or keep it. */
    method TestAt(p: nat, tick: nat) returns (expired: seq<Request>)
      requires Valid() && p < len
      modifies this`front, this`len, requests
      ensures Valid()
      ensures expired == if IsTimeoutExceeded(old(Contents()[p]), tick) then [old(Contents()[p])] else []
      ensures Contents() == if expired != [] then old(Contents()[..p] + Contents()[p + 1..]) else old(Contents())
    {
      assert At(p).Some?;
      var index := Index(p);
      var request := requests[index].value;
      if IsTimeoutExceeded(request, tick) {
        RemoveAt(p);
        return [request];
      }
      return [];
    }

    /**
     loop(): the queue afterwards is the list of the requests that have not timed out, in order; the
     timeout of every other request is executed once, in order.
     */
    method Loop(ticks: nat -> nat) returns (expired: seq<Request>)
      requires Valid()
      modifies this`front, this`len, requests
      ensures Valid()
      ensures var v := Verdicts(old(Contents()), ticks);
              Contents() == Kept(old(Contents()), v) && expired == Expired(old(Contents()), v)
    {
      hide Kept, Expired, Tested;
      ghost var s := Contents();
      ghost var v := Verdicts(s, ticks);
      expired := [];
      var i, test := 0, 0;
      NothingTested(s, v);
      while i < len
        invariant Valid() && i <= len && Tested(s, v, Contents(), expired, i, test)
        decreases |s| - test
      {
        AfterTest(s, v, Contents(), expired, i, test);
        var e := TestAt(i, ticks(test));
        expired := expired + e;
        if e == [] {
          i := i + 1;
        }
        test := test + 1;
      }
      EverythingTested(s, v, Contents(), expired, test);
    }

    method GetFrontRequestOpNr() returns (opNr: nat)
      requires Valid()
      ensures opNr == if Contents() == [] then NO_OPERATION else 1
    {
      if len == 0 {
        return NO_OPERATION;
      }
      return 1;
    }

    /** Take the oldest request. */
    method FetchFrontRequest() returns (result: Option<Request>)
      requires Valid()
      modifies this`front, this`len, requests
      ensures Valid()
      ensures old(Contents()) == [] ==> result.None? && Contents() == []
      ensures old(Contents()) != [] ==> result == Some(old(Contents()[0])) && Contents() == old(Contents()[1..])
    {
      if len == 0 {
        return None;
      }
      assert At(0).Some?;
      result := requests[front];
      DropFront();
    }

    /** Append a request. A full queue gives up its oldest request, which times out. */
    method PushRequestBack(request: Request) returns (expired: seq<Request>)
      requires Valid()
      modifies this`front, this`len, requests
      ensures Valid()
      ensures old(len) < requests.Length ==> expired == [] && Contents() == old(Contents()) + [request]
      ensures old(len) == requests.Length ==>
                expired == [old(Contents()[0])] && Contents() == old(Contents()[1..]) + [request]
    {
      expired := [];
      if len >= requests.Length {
        assert At(0).Some?;
        expired := [requests[front].value];
        DropFront();
      }
      Put(len, Some(request));
      label Written:
      len := len + 1;
      assert forall k :: 0 <= k < requests.Length ==> At(k) == old@Written(At(k));
    }
  }
}
