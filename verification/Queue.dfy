/** The rate-limited work queue, a library component taken as given: its operations on a value,
    the facts its clients rely on, and the object clients share. */
module Queue {
  type Key = string

  /** queue holds the keys ready to be handed out; dirty those added since they were last
      handed out; processing those handed out and not yet done; delayed those to be added
      after a backoff. */
  datatype QueueState = QueueState(queue: seq<Key>, dirty: set<Key>, processing: set<Key>, delayed: set<Key>,
                                   shuttingDown: bool)

  const EMPTY_QUEUE := QueueState([], {}, {}, {}, false)

  function Added(q: QueueState, k: Key): QueueState {
    if q.shuttingDown || k in q.dirty then q
    else if k in q.processing then q.(dirty := q.dirty + {k})
    else q.(dirty := q.dirty + {k}, queue := q.queue + [k])
  }

  /** Hands out the first ready key. */
  function Taken(q: QueueState): QueueState
    requires q.queue != []
  {
    var k := q.queue[0];
    q.(queue := q.queue[1..], dirty := q.dirty - {k}, processing := q.processing + {k})
  }

  function Returned(q: QueueState, k: Key): QueueState {
    var q' := q.(processing := q.processing - {k});
    if k in q.dirty then q'.(queue := q.queue + [k]) else q'
  }

  function RetriedLater(q: QueueState, k: Key): QueueState {
    if q.shuttingDown then q else q.(delayed := q.delayed + {k})
  }

  /** The backoff of a delayed key expires. */
  function Expired(q: QueueState, k: Key): QueueState {
    Added(q.(delayed := q.delayed - {k}), k)
  }

  function Closed(q: QueueState): QueueState {
    q.(shuttingDown := true)
  }

  /** Ready keys are listed once each, and are the dirty keys no worker holds. */
  ghost predicate Consistent(q: QueueState) {
    && (forall i, j | 0 <= i < j < |q.queue| :: q.queue[i] != q.queue[j])
    && (forall k :: k in q.queue <==> k in q.dirty && k !in q.processing)
  }

  lemma AddConsistent(q: QueueState, k: Key)
    requires Consistent(q)
    ensures Consistent(Added(q, k))
    ensures !q.shuttingDown ==> Added(q, k).dirty == q.dirty + {k}
    ensures Added(q, k).processing == q.processing && Added(q, k).delayed == q.delayed
  {
  }

  lemma TakeConsistent(q: QueueState)
    requires Consistent(q) && q.queue != []
    ensures Consistent(Taken(q)) && q.queue[0] in q.dirty && q.queue[0] !in q.processing
  {
    var k := q.queue[0];
    assert k in q.queue;
    forall j
      ensures j in q.queue[1..] <==> j in q.queue && j != k
    {
    }
  }

  lemma ReadyIsDirty(q: QueueState)
    requires Consistent(q)
    ensures q.queue != [] ==> q.dirty != {}
  {
    if q.queue != [] {
      TakeConsistent(q);
    }
  }

  lemma DoneConsistent(q: QueueState, k: Key)
    requires Consistent(q) && k in q.processing
    ensures Consistent(Returned(q, k))
  {
  }

  /** The work left: a dirty key still has to be taken and done, one being processed only done. */
  function Work(q: QueueState): nat {
    2 * |q.dirty| + |q.processing|
  }

  lemma TakeWorks(q: QueueState)
    requires Consistent(q) && q.queue != []
    ensures Work(Taken(q)) == Work(q) - 1
  {
    TakeConsistent(q);
  }

  lemma DoneWorks(q: QueueState, k: Key)
    requires k in q.processing
    ensures Work(Returned(q, k)) == Work(q) - 1
  {
  }

  /** Taking a ready key and giving it straight back leaves the rest as it was, with less work. */
  lemma TurnWorks(q: QueueState)
    requires Consistent(q) && q.queue != []
    ensures var k := q.queue[0];
            var q' := Returned(Taken(q), k);
            q' == q.(queue := q.queue[1..], dirty := q.dirty - {k}) && Consistent(q') && Work(q') == Work(q) - 2
  {
    var k := q.queue[0];
    TakeConsistent(q);
    DoneConsistent(Taken(q), k);
    TakeWorks(q);
    DoneWorks(Taken(q), k);
    assert q.processing + {k} - {k} == q.processing;
  }

  class WorkQueue {
    var queue: seq<Key>
    var dirty: set<Key>
    var processing: set<Key>
    var delayed: set<Key>
    var shuttingDown: bool

    function State(): QueueState
      reads this
    {
      QueueState(queue, dirty, processing, delayed, shuttingDown)
    }

    constructor ()
      ensures State() == EMPTY_QUEUE
    {
      queue, dirty, processing, delayed, shuttingDown := [], {}, {}, {}, false;
    }

    method Add(k: Key)
      modifies this
      ensures State() == Added(old(State()), k)
    {
      if shuttingDown || k in dirty {
        return;
      }
      dirty := dirty + {k};
      if k in processing {
        return;
      }
      queue := queue + [k];
    }

    /** Blocks while the queue is empty and open, so a call that returns has a key or finds the
        queue shut down. */
    method Get() returns (k: Key, shutdown: bool)
      requires queue != [] || shuttingDown
      modifies this
      ensures shutdown == (old(queue) == [])
      ensures shutdown ==> State() == old(State())
      ensures !shutdown ==> k == old(queue)[0] && State() == Taken(old(State()))
    {
      if queue == [] {
        return "", true;
      }
      k, shutdown := queue[0], false;
      queue := queue[1..];
      processing := processing + {k};
      dirty := dirty - {k};
    }

    method Done(k: Key)
      modifies this
      ensures State() == Returned(old(State()), k)
    {
      processing := processing - {k};
      if k in dirty {
        queue := queue + [k];
      }
    }

    method AddRateLimited(k: Key)
      modifies this
      ensures State() == RetriedLater(old(State()), k)
    {
      if !shuttingDown {
        delayed := delayed + {k};
      }
    }

    method ShutDown()
      modifies this
      ensures State() == Closed(old(State()))
    {
      shuttingDown := true;
    }
  }
}
