/**
 * The bounded message context (msgcontext/msgcontext.go): a buffered channel
 * of messages used as a FIFO that, when full, drops its oldest message to
 * make room. The channel's buffer is the field `messages`, oldest first, and
 * its size is `capacity`.
 */
module MsgContext {
  import opened Wrappers

  datatype Message = Message(name: string, message: string)

  /** The buffer after adding m to ms under capacity cap: appended, with the oldest dropped first when full. */
  function Added(ms: seq<Message>, cap: nat, m: Message): seq<Message>
    requires 1 <= cap && |ms| <= cap
  {
    if |ms| < cap then ms + [m] else ms[1..] + [m]
  }

  /** Adding keeps exactly the newest min(cap, |ms| + 1) messages of ms + [m], in order, and never more than cap. */
  lemma AddedKeepsNewest(ms: seq<Message>, cap: nat, m: Message)
    requires 1 <= cap && |ms| <= cap
    ensures var all := ms + [m];
      var r := Added(ms, cap, m);
      |r| <= cap && |r| == (if |all| < cap then |all| else cap) && r == all[|all| - |r|..]
      && r[|r| - 1] == m
  {
    var all := ms + [m];
    if |ms| == cap {
      assert all[1..] == ms[1..] + [m];
    }
  }

  class Context {
    var messages: seq<Message>
    const capacity: nat

    ghost predicate Valid()
      reads this
    {
      |messages| <= capacity
    }

    /** `NewContext(size)`: empty, with room for size messages. */
    constructor (size: nat)
      ensures Valid() && capacity == size && messages == []
    {
      capacity := size;
      messages := [];
    }

    /** The non-blocking send: appends m when there is room. */
    method TrySend(m: Message) returns (sent: bool)
      requires Valid()
      modifies this
      ensures Valid()
      ensures sent <==> old(|messages|) < capacity
      ensures messages == if sent then old(messages) + [m] else old(messages)
    {
      if |messages| < capacity {
        messages := messages + [m];
        return true;
      }
      return false;
    }

    /** The non-blocking receive: takes the oldest message, if any. */
    method TryReceive() returns (m: Option<Message>)
      requires Valid()
      modifies this
      ensures Valid()
      ensures m.None? <==> old(messages) == []
      ensures m.Some? ==> old(messages) == [m.value] + messages
      ensures m.None? ==> messages == []
    {
      if messages == [] {
        return None;
      }
      m := Some(messages[0]);
      messages := messages[1..];
    }

    /**
     * `Put`: send, or when the buffer is full, receive the oldest message
     * and send again. On a zero-size context the send never succeeds and
     * the receive of the oldest message blocks forever, as the buffer is
     * empty, so Put asks for a capacity of at least one.
     */
    method Put(name: string, msg: string)
      requires Valid() && capacity >= 1
      modifies this
      ensures Valid()
      ensures messages == Added(old(messages), capacity, Message(name, msg))
    {
      var m := Message(name, msg);
      var sent := TrySend(m);
      if !sent {
        var _ := TryReceive();
        sent := TrySend(m);
      }
    }

    /** `Pop`: receive until the buffer is empty, returning everything oldest first. */
    method Pop() returns (msgs: seq<Message>)
      requires Valid()
      modifies this
      ensures Valid()
      ensures msgs == old(messages) && messages == []
    {
      msgs := [];
      while true
        invariant Valid() && old(messages) == msgs + messages
        decreases |messages|
      {
        var m := TryReceive();
        if m.None? {
          return;
        }
        msgs := msgs + [m.value];
      }
    }

    /** `Clear`: receive and drop until the buffer is empty. */
    method Clear()
      requires Valid()
      modifies this
      ensures Valid() && messages == []
    {
      while true
        invariant Valid()
        decreases |messages|
      {
        var m := TryReceive();
        if m.None? {
          return;
        }
      }
    }
  }
}
