/** gps/utils/msg_q.c: a blocking queue over the linked list. Every stretch of code that holds
    list_mutex is one step here; what happens between the steps is the business of MsgTask. */
module MsgQueue {
  import opened Wrappers
  import opened LinkedList

  /** What the mutex guards, with the pending messages oldest first. */
  datatype Queue = Queue(pending: seq<Item>, unblocked: bool)

  /** msg_q_snd: `room` says whether the list gets memory for one more element. */
  function SendStatus(q: Queue, msg: Ptr, room: bool): Status {
    if msg == NULL then InvalidParameter
    else if q.unblocked then UnavailableResource
    else if !room then FailureGeneral
    else Success
  }

  function Sent(q: Queue, msg: Ptr, owned: bool, room: bool): Queue {
    if SendStatus(q, msg, room) == Success then q.(pending := q.pending + [Item(msg, owned)]) else q
  }

  /** Where msg_q_rcv gets in one stretch: into pthread_cond_wait, or out with a status
      and, on success, a message. */
  datatype Outcome = Waits | Returns(rv: Status, msg: Option<Ptr>)

  function WhatRcvDoes(q: Queue, resumed: bool): Outcome {
    if q.unblocked && (!resumed || q.pending == []) then Returns(UnavailableResource, None)
    else if q.pending == [] then Waits
    else Returns(Success, Some(q.pending[0].data))
  }

  function Received(q: Queue, resumed: bool): Queue {
    match WhatRcvDoes(q, resumed)
    case Returns(Success, _) => q.(pending := q.pending[1..])
    case _ => q
  }

  class MsgQ {
    const msgList: ListState
    var unblocked: bool

    ghost predicate Valid()
      reads msgList, msgList.nodes
    {
      msgList.Valid()
    }

    ghost function Contents(): Queue
      reads this, msgList, msgList.nodes
    {
      Queue(Reversed(msgList.Items()), unblocked)
    }

    constructor ()
      ensures Valid() && Contents() == Queue([], false)
      ensures fresh(msgList) && msgList.nodes == []
    {
      msgList := new ListState();
      unblocked := false;
    }

    /** msg_q_snd. Whatever linked_list_add answers, one waiter is signalled. */
    method Snd(msg: Ptr, dealloc: bool, room: bool) returns (rv: Status, signals: bool)
      requires Valid()
      modifies msgList, msgList.nodes
      ensures Valid() && fresh(set n | n in msgList.nodes && n !in old(msgList.nodes))
      ensures Contents() == Sent(old(Contents()), msg, dealloc, room)
      ensures rv == SendStatus(old(Contents()), msg, room)
      ensures rv == Success <==> msg != NULL && !unblocked && room
      ensures rv == UnavailableResource <==> msg != NULL && unblocked
      ensures rv == InvalidParameter <==> msg == NULL
      ensures Contents().pending == if rv == Success then old(Contents()).pending + [Item(msg, dealloc)]
                                    else old(Contents()).pending
      ensures unblocked == old(unblocked)
      ensures signals == (msg != NULL && !unblocked)
    {
      if msg == NULL {
        return InvalidParameter, false;
      }
      if unblocked {
        return UnavailableResource, false;
      }
      AddRemoveIsFifo(msgList.Items(), Item(msg, dealloc));
      rv := msgList.Add(msg, dealloc, room);
      return rv, true;
    }

    /** msg_q_rcv, from taking the mutex (`resumed`: again, in pthread_cond_wait) to releasing it. */
    method Rcv(resumed: bool) returns (outcome: Outcome)
      requires Valid()
      modifies msgList, msgList.nodes
      ensures Valid() && msgList.nodes <= old(msgList.nodes)
      ensures outcome == WhatRcvDoes(old(Contents()), resumed)
      ensures Contents() == Received(old(Contents()), resumed)
      ensures unblocked == old(unblocked)
      ensures var before, after := old(Contents()).pending, Contents().pending;
              if old(unblocked) && !resumed then
                outcome == Returns(UnavailableResource, None) && after == before
              else if before != [] then
                outcome == Returns(Success, Some(before[0].data)) && before == [before[0]] + after
              else
                after == [] && outcome == if old(unblocked) then Returns(UnavailableResource, None) else Waits
    {
      if !resumed && unblocked {
        return Returns(UnavailableResource, None);
      }
      var empty := msgList.Empty();
      if empty && !unblocked {
        return Waits;
      }
      AddRemoveIsFifo(msgList.Items(), Item(NULL, false));
      ghost var items := msgList.Items();
      var rv, msg := msgList.Remove();
      assert items != [] ==> msgList.Items() == items[..|items| - 1];
      return Returns(rv, msg);
    }

    /** msg_q_flush. */
    method Flush() returns (freed: seq<Ptr>)
      requires Valid()
      modifies msgList
      ensures Valid() && Contents() == Queue([], old(unblocked))
      ensures freed == Owned(Reversed(old(Contents()).pending))
    {
      assert Reversed(Contents().pending) == msgList.Items();
      freed := msgList.Flush();
    }

    /** msg_q_unblock: all the waiters are signalled, unless it was done before. */
    method Unblock() returns (rv: Status, broadcasts: bool)
      requires Valid()
      modifies this
      ensures Valid() && Contents() == old(Contents()).(unblocked := true)
      ensures broadcasts == !old(unblocked)
      ensures rv == if old(unblocked) then UnavailableResource else Success
    {
      if unblocked {
        return UnavailableResource, false;
      }
      unblocked := true;
      return Success, true;
    }
  }
}
