/** The two critical sections of the work queue on the heap, as they are written: struct msg
    nodes linked through m_next. What is done between lock and unlock; WorkQueue interleaves
    the same statements of many threads. */
module MessageList {

  class Msg {
    var m_next: Msg?
    const data: nat

    constructor (data: nat)
      ensures this.data == data
    {
      this.data := data;
      m_next := null;
    }
  }

  class WorkList {
    var workq: Msg?
    ghost var nodes: seq<Msg>  // from the NULL end to workq

    ghost function Below(k: nat): Msg?
      requires k <= |nodes|
      reads this
    {
      if k == 0 then null else nodes[k - 1]
    }

    ghost predicate LinkAt(k: nat)
      requires k < |nodes|
      reads this, nodes
    {
      nodes[k].m_next == Below(k)
    }

    /** workq leads through exactly these nodes, each once, to NULL. */
    ghost predicate Valid()
      reads this, nodes
    {
      && workq == Below(|nodes|)
      && (forall k :: 0 <= k < |nodes| ==> LinkAt(k))
      && (forall j, k :: 0 <= j < k < |nodes| ==> nodes[j] != nodes[k])
    }

    constructor ()
      ensures Valid() && nodes == []
    {
      workq, nodes := null, [];
    }

    /** enqueue_msg inside the lock. */
    method Enqueue(mp: Msg)
      requires Valid() && mp !in nodes
      modifies this, mp`m_next
      ensures Valid() && workq == mp && nodes == old(nodes) + [mp]
    {
      mp.m_next := workq;
      workq := mp;
      nodes := nodes + [mp];
      forall k | 0 <= k < |nodes| ensures LinkAt(k) {
        assert k < |old(nodes)| ==> old(LinkAt(k));
      }
    }

    /** process_msg inside the lock, once the queue is not empty. */
    method Take() returns (mp: Msg)
      requires Valid() && workq != null
      modifies this
      ensures Valid() && old(nodes) == nodes + [mp] && mp == old(workq) && mp !in nodes
    {
      mp := workq;
      assert LinkAt(|nodes| - 1);
      workq := mp.m_next;
      nodes := nodes[..|nodes| - 1];
      forall k | 0 <= k < |nodes| ensures LinkAt(k) {
        assert old(LinkAt(k));
      }
    }
  }
}
