/**
 * The response dispatcher (internal/kafka/consumer.go): reads the response
 * topic and hands each decoded response to the reply slot registered under
 * the record's key.
 */
module Kafka {
  import opened Models
  import opened Bus
  import opened Storage

  /** What processing one record did; the source only logs it. */
  datatype Dispatch = UnknownId | Undecodable | Resolved

  /**
   * The response the consume loop hands to the slot of `id` while reading
   * `inbox`: the body of the first decodable record keyed `id`, if any.
   */
  function FirstResponse(inbox: seq<Read<CaptureResponse>>, id: string): (response: Option<CaptureResponse>)
  {
    if inbox == [] then None
    else
      var earlier := FirstResponse(inbox[..|inbox| - 1], id);
      var last := inbox[|inbox| - 1];
      if earlier.Some? then earlier
      else if last.Received? && last.record.key == id && last.record.body.Some? then last.record.body
      else None
  }

  /** The first response for an id is the decoded body of some record carrying that id as key. */
  lemma {:induction false} FirstResponseArrived(inbox: seq<Read<CaptureResponse>>, id: string)
    ensures FirstResponse(inbox, id).Some? ==>
      exists i :: 0 <= i < |inbox| && inbox[i] == Received(Record(id, FirstResponse(inbox, id)))
  {
    if inbox != [] {
      var init := inbox[..|inbox| - 1];
      FirstResponseArrived(init, id);
      if FirstResponse(init, id).Some? {
        var i :| 0 <= i < |init| && init[i] == Received(Record(id, FirstResponse(init, id)));
        assert inbox[i] == init[i];
      }
    }
  }

  /** A response is handed over for an id exactly when some decodable record carries that id as key. */
  lemma {:induction false} FirstResponseExists(inbox: seq<Read<CaptureResponse>>, id: string)
    ensures FirstResponse(inbox, id).Some? <==>
      exists i :: 0 <= i < |inbox| && inbox[i].Received? && inbox[i].record.key == id && inbox[i].record.body.Some?
  {
    if inbox != [] {
      var init := inbox[..|inbox| - 1];
      FirstResponseExists(init, id);
      if exists i :: 0 <= i < |init| && init[i].Received? && init[i].record.key == id && init[i].record.body.Some? {
        var i :| 0 <= i < |init| && init[i].Received? && init[i].record.key == id && init[i].record.body.Some?;
        assert inbox[i] == init[i];
      }
      if exists i :: 0 <= i < |inbox| && inbox[i].Received? && inbox[i].record.key == id && inbox[i].record.body.Some? {
        var i :| 0 <= i < |inbox| && inbox[i].Received? && inbox[i].record.key == id && inbox[i].record.body.Some?;
        if i < |init| { assert init[i] == inbox[i]; }
      }
    }
  }

  class Consumer {
    const store: CorrelationStore

    constructor (store: CorrelationStore)
      ensures this.store == store
    {
      this.store := store;
    }

    /**
     * processMessage: the correlation id is the record's key, never a field
     * of the body. An unknown id or an undecodable body is dropped; otherwise
     * the decoded response is delivered to the id's slot and the id deleted.
     */
    method ProcessMessage(record: Record<CaptureResponse>) returns (result: Dispatch)
      requires store.Valid()
      modifies store, store.channels.Values
      ensures store.Valid()
      ensures result == (if record.key !in old(store.channels) then UnknownId
                         else if record.body.None? then Undecodable
                         else Resolved)
      ensures result != Resolved ==>
        store.channels == old(store.channels) && store.expiries == old(store.expiries)
      ensures result == Resolved ==>
        && old(store.channels)[record.key].outcome == Delivered(record.body.value)
        && store.channels == old(store.channels) - {record.key}
        && store.expiries == old(store.expiries) - {record.key}
      ensures forall id :: id in old(store.channels) && (id != record.key || result != Resolved) ==>
        old(store.channels)[id].outcome == Pending
    {
      var id := record.key;
      var ch, found := store.Get(id);
      if !found {
        return UnknownId;
      }
      if record.body.None? {
        return Undecodable;
      }
      assert ch in store.channels.Values;
      ch.Deliver(record.body.value);
      store.Delete(id);
      result := Resolved;
    }

    /**
     * Consume: the read loop. Read errors and dropped records do not stop it;
     * the end of `inbox` stands for cancellation. Every id of the store that
     * receives a decodable response is resolved with the first such response
     * and removed; every other entry is left as it was.
     */
    method Consume(inbox: seq<Read<CaptureResponse>>)
      requires store.Valid()
      modifies store, store.channels.Values
      ensures store.Valid()
      ensures store.channels.Keys <= old(store.channels).Keys
      ensures forall id :: id in old(store.channels) ==>
        if FirstResponse(inbox, id).Some? then
          id !in store.channels && old(store.channels)[id].outcome == Delivered(FirstResponse(inbox, id).value)
        else
          id in store.channels && store.channels[id] == old(store.channels)[id]
          && store.expiries[id] == old(store.expiries)[id] && store.channels[id].outcome == Pending
    {
      var i := 0;
      while i < |inbox|
        invariant 0 <= i <= |inbox|
        invariant store.Valid()
        invariant store.channels.Keys <= old(store.channels).Keys
        invariant forall id :: id in store.channels ==> store.channels[id] == old(store.channels)[id]
        invariant forall id :: id in store.expiries ==> store.expiries[id] == old(store.expiries)[id]
        invariant forall id :: id in old(store.channels) ==>
          if FirstResponse(inbox[..i], id).Some? then
            id !in store.channels && old(store.channels)[id].outcome == Delivered(FirstResponse(inbox[..i], id).value)
          else
            id in store.channels
      {
        assert inbox[..i + 1][..i] == inbox[..i];
        if inbox[i].Received? {
          assert store.channels.Values <= old(store.channels).Values by {
            forall s | s in store.channels.Values
              ensures s in old(store.channels).Values
            {
              var id :| id in store.channels && store.channels[id] == s;
            }
          }
          var _ := ProcessMessage(inbox[i].record);
        }
        i := i + 1;
      }
      assert inbox[..i] == inbox;
    }
  }
}
