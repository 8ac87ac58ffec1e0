/** The mutable session of one display and the sections of PostBuffer, OnCWBDone and
    ProcessCWBStatus that run under its lock, each proved to be one step of `CwbProtocol`. */
module CwbSession {
  import opened CwbProtocol

  class QueueNode {
    ghost const call: nat          // which call of PostBuffer made this node
    const handleId: nat
    const hasCallback: bool
    var notifiedStatus: Notified
    var requestCompleted: bool

    /** Stands in the history for a post that makes no node. */
    ghost constructor Missing(call: nat, hasCallback: bool)
      ensures this.call == call && this.handleId == 0 && this.hasCallback == hasCallback
      ensures notifiedStatus == NotYet && !requestCompleted
    {
      this.call := call;
      this.handleId := 0;
      this.hasCallback := hasCallback;
      notifiedStatus := NotYet;
      requestCompleted := false;
    }

    constructor (ghost call: nat, handleId: nat, hasCallback: bool)
      ensures this.call == call && this.handleId == handleId && this.hasCallback == hasCallback
      ensures notifiedStatus == NotYet && !requestCompleted
    {
      this.call := call;
      this.handleId := handleId;
      this.hasCallback := hasCallback;
      notifiedStatus := NotYet;
      requestCompleted := false;
    }
  }

  class DisplayCwbSession {
    var queue: seq<QueueNode>
    var asyncThreadRunning: bool

    // What the threads outside the lock are doing, and the histories the theorems speak of.
    ghost var nodes: seq<QueueNode>
    ghost var phases: seq<Phase>
    ghost var workers: seq<Worker>
    ghost var pushed: seq<nat>
    ghost var dropped: set<nat>
    ghost var delivered: seq<nat>
    ghost var callbacks: seq<(nat, Notified)>
    ghost var closes: seq<nat>
    ghost var fault: bool                // back() has been called on an empty deque

    ghost predicate Valid()
      reads this
    {
      && |phases| == |nodes|
      && (forall i :: 0 <= i < |nodes| ==> nodes[i].call == i)
      && (forall i :: 0 <= i < |queue| ==> queue[i].call < |nodes| && nodes[queue[i].call] == queue[i])
      && (forall w :: 0 <= w < |workers| && workers[w].Waiting? ==> workers[w].node < |nodes|)
      && (forall w :: 0 <= w < |workers| && workers[w].Notifying? ==> workers[w].node < |nodes|)
    }

    ghost function CallAt(i: nat): Call
      requires i < |nodes| == |phases|
      reads this, nodes
    {
      Call(nodes[i].handleId, nodes[i].hasCallback, nodes[i].notifiedStatus, nodes[i].requestCompleted, phases[i])
    }

    ghost function QueueIds(): (ids: seq<nat>)
      reads this
      ensures |ids| == |queue| && forall i :: 0 <= i < |queue| ==> ids[i] == queue[i].call
    {
      seq(|queue|, i requires 0 <= i < |queue| reads this => queue[i].call)
    }

    ghost function Calls(): (calls: seq<Call>)
      requires |phases| == |nodes|
      reads this, nodes
      ensures |calls| == |nodes| && forall i :: 0 <= i < |nodes| ==> calls[i] == CallAt(i)
    {
      seq(|nodes|, i requires 0 <= i < |nodes| && |phases| == |nodes| reads this, nodes => CallAt(i))
    }

    /** The protocol state this object stands for. */
    ghost function View(): (s: State)
      requires Valid()
      reads this, nodes
      ensures Ids(s)
    {
      State(QueueIds(), Calls(), asyncThreadRunning, workers, pushed, dropped, delivered, callbacks, closes, fault)
    }

    constructor ()
      ensures Valid() && View() == EMPTY
    {
      queue, asyncThreadRunning := [], false;
      fault := false;
      nodes, phases, workers, pushed, dropped, delivered, callbacks, closes := [], [], [], [], {}, [], [], [];
    }

    /** make_shared<QueueNode> at the start of PostBuffer; `handleId` is the id gralloc reported, 0 if it
        could not be read, and then there is no node. */
    method NewNode(handleId: nat, hasCallback: bool) returns (node: QueueNode?)
      requires Valid()
      modifies this
      ensures Valid() && |nodes| == |old(nodes)| + 1 && nodes[..|old(nodes)|] == old(nodes)
      ensures View() == old(BeginCall(View(), handleId, hasCallback))
      ensures node == null <==> handleId == 0
      ensures node != null ==> fresh(node) && nodes[|old(nodes)|] == node
      ensures node != null ==> node.handleId == handleId && node.hasCallback == hasCallback
      ensures node != null ==> node.notifiedStatus == NotYet && !node.requestCompleted
      ensures queue == old(queue) && phases == old(phases) + [if handleId == 0 then Refused(NoNode) else Created]
    {
      ghost var was := View();
      if handleId == 0 {
        ghost var missing := new QueueNode.Missing(|nodes|, hasCallback);
        nodes := nodes + [missing];
        phases := phases + [Refused(NoNode)];
        node := null;
      } else {
        node := new QueueNode(|nodes|, handleId, hasCallback);
        nodes := nodes + [node];
        phases := phases + [Created];
      }
      assert Calls() == BeginCall(was, handleId, hasCallback).calls;
    }

    /** The first locked section of PostBuffer: refuse a handle that is already queued, else push. */
    method TryPush(node: QueueNode) returns (duplicate: bool)
      requires Valid() && node in nodes && phases[node.call].Created?
      modifies this
      ensures Valid() && nodes == old(nodes)
      ensures View() == old(PushNode(View(), node.call))
      ensures duplicate <==> exists i :: 0 <= i < |old(queue)| && old(queue)[i].handleId == node.handleId
      ensures queue == if duplicate then old(queue) else old(queue) + [node]
      ensures phases == old(phases)[node.call := if duplicate then Refused(Duplicate) else Queued]
    {
      ghost var was := View();
      duplicate := false;
      for i := 0 to |queue|
        invariant duplicate <==> exists j :: 0 <= j < i && queue[j].handleId == node.handleId
      {
        if queue[i].handleId == node.handleId {
          duplicate := true;
          assert was.calls[was.queue[i]].handleId == node.handleId;
          break;
        }
      }
      assert duplicate <==> HandleQueued(was.queue, was.calls, node.handleId) by {
        assert forall j :: 0 <= j < |queue| ==> was.calls[was.queue[j]].handleId == queue[j].handleId;
      }
      if !duplicate {
        queue := queue + [node];
        pushed := pushed + [node.call];
        assert QueueIds() == was.queue + [node.call];
      }
      phases := phases[node.call := if duplicate then Refused(Duplicate) else Queued];
      assert Calls() == PushNode(was, node.call).calls;
    }

    /** The locked section of a failed PostBuffer, after it closed its buffer; `node` is null for a post that
        made none.  back() of an empty deque is a fault; `CwbLimits.EmptyDequeExactly` says when it happens. */
    method Rollback(node: QueueNode?, ghost call: nat)
      requires Valid() && call < |nodes| && phases[call].Closed? && (node == null <==> phases[call].reason.NoNode?)
      requires node != null ==> node == nodes[call]
      modifies this
      ensures Valid() && nodes == old(nodes)
      ensures View() == old(RollbackNode(View(), call))
      ensures queue ==
        old(if node != null && queue != [] && queue[|queue| - 1] == node then queue[..|queue| - 1] else queue)
      ensures fault == old(fault || (node != null && queue == []))
    {
      ghost var was := View();
      if node != null {
        if queue == [] {
          fault := true;
        } else if node == queue[|queue| - 1] {
          dropped := dropped + {call};
          queue := queue[..|queue| - 1];
        }
      }
      phases := phases[call := Failed(phases[call].reason)];
      assert Calls() == RollbackNode(was, call).calls;
      assert QueueIds() == RollbackNode(was, call).queue;
    }

    /** The locked section of a successful PostBuffer; `startWorker`: launch a new async task. */
    method Finish(node: QueueNode) returns (startWorker: bool)
      requires Valid() && node in nodes && phases[node.call].Accepted?
      modifies this, node
      ensures Valid() && nodes == old(nodes)
      ensures View() == old(FinishCall(View(), node.call))
      ensures startWorker == old(!asyncThreadRunning && queue != [])
      ensures node.requestCompleted && asyncThreadRunning == (old(asyncThreadRunning) || startWorker)
    {
      ghost var was := View();
      startWorker := !asyncThreadRunning && queue != [];
      if startWorker {
        asyncThreadRunning := true;
        workers := workers + [Running];
      }
      node.requestCompleted := true;
      phases := phases[node.call := Done];
      assert Calls() == FinishCall(was, node.call).calls;
      assert QueueIds() == was.queue;
    }

    /** The verdict for the node OnCWBDone stopped at, and notify_one. */
    method Mark(i: nat, ghost handleId: nat, status: int, ghost wake: nat)
      requires Valid() && (SomeWaiting(workers) ==> wake < |workers| && workers[wake].Waiting?)
      requires i < |queue| && i == FindPending(QueueIds(), Calls(), handleId, 0)
      modifies this`workers, queue[i]
      ensures Valid() && View() == old(NotifyDone(View(), handleId, status, wake))
      ensures queue[i].notifiedStatus == if status == 0 then Success else Failure
    {
      ghost var was := View();
      queue[i].notifiedStatus := if status != 0 then Failure else Success;
      if SomeWaiting(workers) {
        workers := workers[wake := workers[wake].(signalled := true)];
      }
      assert Calls() == NotifyDone(was, handleId, status, wake).calls;
      assert QueueIds() == was.queue;
    }

    predicate Unnotified(node: QueueNode, handleId: nat)
      reads node
    {
      node.notifiedStatus == NotYet && node.handleId == handleId
    }

    /** OnCWBDone: the first un-notified node of `handleId` gets the verdict; 0 if there is one. */
    method OnCwbDone(status: int, handleId: nat, ghost wake: nat) returns (r: int)
      requires Valid() && (SomeWaiting(workers) ==> wake < |workers| && workers[wake].Waiting?)
      modifies this, nodes
      ensures Valid() && nodes == old(nodes)
      ensures View() == old(NotifyDone(View(), handleId, status, wake))
      ensures r == if old(exists i :: 0 <= i < |queue| && Unnotified(queue[i], handleId)) then 0 else -1
    {
      ghost var was := View();
      if queue == [] {
        return -1;
      }
      for i := 0 to |queue|
        invariant Valid() && View() == was && nodes == old(nodes)
        invariant FindPending(was.queue, was.calls, handleId, 0) == FindPending(was.queue, was.calls, handleId, i)
        invariant forall j :: 0 <= j < i ==> !Unnotified(queue[j], handleId)
      {
        assert was.calls[was.queue[i]] == CallAt(queue[i].call);
        if queue[i].notifiedStatus == NotYet {
          if queue[i].handleId == handleId {
            assert Unnotified(queue[i], handleId);
            Mark(i, handleId, status, wake);
            return 0;
          }
        }
      }
      return -1;
    }

    /** The locked section at the top of the worker loop.  `exit`: the thread ends; a returned node
        has been popped and is to be reported to the client. */
    method Look(ghost w: nat) returns (exit: bool, popped: QueueNode?)
      requires Valid() && w < |workers| && workers[w].Running?
      modifies this
      ensures Valid() && nodes == old(nodes)
      ensures View() == old(LookAtFront(View(), w))
      ensures exit <==> old(queue) == []
      ensures popped != null <==>
        old(queue) != [] && old(queue)[0].requestCompleted && old(queue)[0].notifiedStatus != NotYet
      ensures queue == if popped != null then old(queue)[1..] else old(queue)
      ensures asyncThreadRunning == (old(asyncThreadRunning) && !exit)
      ensures popped != null ==> popped == old(queue)[0] && workers[w] == Notifying(popped.call)
    {
      ghost var was := View();
      exit, popped := false, null;
      if queue == [] {
        asyncThreadRunning := false;
        workers := workers[w := Exited];
        exit := true;
      } else {
        var front := queue[0];
        assert was.calls[was.queue[0]] == CallAt(front.call);
        if !front.requestCompleted {
        } else if front.notifiedStatus == NotYet {
          workers := workers[w := Waiting(front.call, false)];
        } else {
          queue := queue[1..];
          workers := workers[w := Notifying(front.call)];
          popped := front;
        }
      }
      assert Calls() == LookAtFront(was, w).calls;
      assert QueueIds() == LookAtFront(was, w).queue;
    }

    /** The worker with the lock back after cv.wait on `node`.  pop_front needs a non-empty deque;
        `CwbTheorems.PopsExaminedNode` shows that it always has one. */
    method WakeAfterWait(ghost w: nat, node: QueueNode) returns (popped: bool)
      requires Valid() && w < |workers| && workers[w].Waiting? && node in nodes && node.call == workers[w].node
      requires queue != []
      modifies this
      ensures Valid() && nodes == old(nodes)
      ensures View() == old(WakeUp(View(), w))
      ensures popped <==> node.notifiedStatus != NotYet
      ensures queue == if popped then old(queue)[1..] else old(queue)
    {
      ghost var was := View();
      assert was.calls[node.call] == CallAt(node.call);
      popped := node.notifiedStatus != NotYet;
      if popped {
        queue := queue[1..];
        workers := workers[w := Notifying(node.call)];
      } else {
        workers := workers[w := Running];
      }
      assert Calls() == was.calls;
      assert QueueIds() == WakeUp(was, w).queue;
    }

    /** NotifyCWBStatus, outside the lock: tell the client if it left a callback, then close the buffer. */
    method NotifyCwbStatus(ghost w: nat, node: QueueNode) returns (told: bool)
      requires Valid() && w < |workers| && workers[w].Notifying? && node in nodes && node.call == workers[w].node
      modifies this
      ensures Valid() && nodes == old(nodes)
      ensures View() == old(TellClient(View(), w))
      ensures told == node.hasCallback
      ensures callbacks == old(callbacks) + (if node.hasCallback then [(node.call, node.notifiedStatus)] else [])
      ensures closes == old(closes) + [node.call] && delivered == old(delivered) + [node.call]
    {
      ghost var was := View();
      assert was.calls[node.call] == CallAt(node.call);
      told := node.hasCallback;
      if told {
        callbacks := callbacks + [(node.call, node.notifiedStatus)];
      }
      closes := closes + [node.call];
      delivered := delivered + [node.call];
      workers := workers[w := Running];
      assert Calls() == was.calls;
      assert QueueIds() == was.queue;
    }
  }
}
