/**
 The process lock: a listener on a pipe whose name only one process can hold. The functions say what
 each event does to the lock; the class carries them out.
 */
module ProcessLock {

  datatype LossReason = ListenerClosed | ListenerError

  /** `asked` tells that a release has been asked for, `attached` that the listener's events still arrive. */
  datatype Lock = Lock(held: bool, listenerClosed: bool, releaseInProgress: bool, asked: bool, attached: bool)

  const BOUND := Lock(true, false, false, false, true)

  /** The listener has closed. That is a loss unless it was asked to. */
  function HandleClose(l: Lock): Lock {
    if !l.attached then l
    else l.(listenerClosed := true, held := l.held && l.releaseInProgress)
  }

  function HandleError(l: Lock): Lock {
    if !l.attached then l else l.(held := false)
  }

  /** Asking again changes nothing. A closed listener has nothing left to close. */
  function BeginRelease(l: Lock): Lock {
    if l.asked then l
    else if l.listenerClosed then l.(asked := true, attached := false)
    else l.(asked := true, releaseInProgress := true)
  }

  /** The answer to the request to close the listener. */
  function FinishRelease(l: Lock, failed: bool): Lock {
    if !l.releaseInProgress then l
    else if failed then l.(releaseInProgress := false)
    else l.(releaseInProgress := false, held := false, attached := false)
  }

  /** A lock that is no longer held never is again, and a release stays asked for. */
  lemma LockOnlyGoes(l: Lock, failed: bool)
    ensures forall k :: k in {HandleClose(l), HandleError(l), BeginRelease(l), FinishRelease(l, failed)} ==>
              (k.held ==> l.held) && (l.asked ==> k.asked)
  {
  }

  /**
   The lock is lost exactly by a close that nobody asked for, by an error, or by a release that succeeds,
   while its events still arrive; a release that fails leaves it held, and the next loss is heard.
   */
  lemma LossIff(l: Lock, failed: bool)
    requires l.held && (l.releaseInProgress ==> l.attached)
    ensures !HandleClose(l).held <==> l.attached && !l.releaseInProgress
    ensures !HandleError(l).held <==> l.attached
    ensures BeginRelease(l).held && (BeginRelease(l).releaseInProgress <==> l.releaseInProgress || (!l.asked && !l.listenerClosed))
    ensures BeginRelease(l).attached <==> l.attached && (l.asked || !l.listenerClosed)
    ensures !FinishRelease(l, failed).held <==> l.releaseInProgress && !failed
    ensures FinishRelease(l, failed).attached <==> l.attached && (failed || !l.releaseInProgress)
    ensures !FinishRelease(l, failed).releaseInProgress
  {
  }

  function Told(listeners: seq<nat>, reason: LossReason): (r: seq<(nat, LossReason)>)
    ensures |r| == |listeners| && forall i :: 0 <= i < |r| ==> r[i] == (listeners[i], reason)
  {
    seq(|listeners|, i requires 0 <= i < |listeners| => (listeners[i], reason))
  }

  class ListenerRuntimeProcessLock {
    var held: bool
    var listenerClosed: bool
    var releaseInProgress: bool
    var asked: bool
    var attached: bool
    var lossListeners: seq<nat>
    ghost var notices: seq<(nat, LossReason)>

    function State(): Lock
      reads this
    {
      Lock(held, listenerClosed, releaseInProgress, asked, attached)
    }

    constructor ()
      ensures State() == BOUND && lossListeners == [] && notices == []
    {
      held, listenerClosed, releaseInProgress, asked, attached := true, false, false, false, true;
      lossListeners, notices := [], [];
    }

    method OnLost(listener: nat)
      modifies this`lossListeners
      ensures lossListeners == if listener in old(lossListeners) then old(lossListeners) else old(lossListeners) + [listener]
    {
      if listener !in lossListeners { lossListeners := lossListeners + [listener]; }
    }

    /** Every listener is told, once in the lock's life. */
    method MarkLost(reason: LossReason)
      modifies this`held, this`notices
      ensures !held
      ensures notices == old(notices) + if old(held) then Told(lossListeners, reason) else []
    {
      if !held { return; }
      held := false;
      var i := 0;
      while i < |lossListeners|
        invariant 0 <= i <= |lossListeners|
        invariant !held && notices == old(notices) + Told(lossListeners[..i], reason)
      {
        notices := notices + [(lossListeners[i], reason)];
        i := i + 1;
      }
      assert lossListeners[..i] == lossListeners;
    }

    method CloseEvent()
      modifies this`held, this`listenerClosed, this`notices
      ensures State() == HandleClose(old(State()))
      ensures notices == old(notices) + if old(held) && !held then Told(lossListeners, ListenerClosed) else []
    {
      if !attached { return; }
      listenerClosed := true;
      if !releaseInProgress { MarkLost(ListenerClosed); }
    }

    method ErrorEvent()
      modifies this`held, this`notices
      ensures State() == HandleError(old(State()))
      ensures notices == old(notices) + if old(held) && !held then Told(lossListeners, ListenerError) else []
    {
      if attached { MarkLost(ListenerError); }
    }

    method Release()
      modifies this`asked, this`attached, this`releaseInProgress
      ensures State() == BeginRelease(old(State()))
    {
      if asked { return; }
      asked := true;
      if listenerClosed {
        attached := false;
      } else {
        releaseInProgress := true;
      }
    }

    /** An orderly release tells no listener. */
    method CloseAnswered(failed: bool)
      requires releaseInProgress
      modifies this`held, this`attached, this`releaseInProgress
      ensures State() == FinishRelease(old(State()), failed)
    {
      releaseInProgress := false;
      if failed { return; }
      held := false;
      attached := false;
    }
  }
}
