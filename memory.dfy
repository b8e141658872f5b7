/** The chatbot's per-user, per-context conversation buffers: a nested map filled on demand by
    `get_memory` and emptied by `clear_memory`. Buffers are objects: a caller holding one sees the
    effect of a later clear. */
module Memory {
  import opened Common

  /** The context used when the caller names none. */
  const DefaultContext: string := "general"

  /** One conversation buffer; only its message list is modelled. */
  class Buffer {
    var messages: seq<string>

    constructor ()
      ensures messages == []
    {
      messages := [];
    }

    method Clear()
      modifies this
      ensures messages == []
    {
      messages := [];
    }
  }

  class MemoryManager {
    /** `user_memories`: user id -> context id -> buffer. */
    var userMemories: map<string, map<string, Buffer>>

    /** No buffer is shared between two (user, context) entries. */
    ghost predicate Valid()
      reads this
    {
      Unshared(userMemories)
    }

    constructor ()
      ensures Valid() && userMemories == map[]
    {
      userMemories := map[];
    }

    /** `get_memory(user_id, context_id)`: the existing buffer of the pair, or a new empty one registered
        under it. Nothing else in the map changes. */
    method GetMemory(userId: string, contextId: string) returns (b: Buffer)
      requires Valid()
      modifies this
      ensures Valid()
      ensures userId in userMemories && contextId in userMemories[userId] && userMemories[userId][contextId] == b
      ensures userId in old(userMemories) && contextId in old(userMemories)[userId] ==>
                b == old(userMemories)[userId][contextId] && userMemories == old(userMemories)
      ensures !(userId in old(userMemories) && contextId in old(userMemories)[userId]) ==>
                fresh(b) && b.messages == []
                && userMemories == old(userMemories)[userId := Contexts(old(userMemories), userId)[contextId := b]]
    {
      if userId !in userMemories {
        userMemories := userMemories[userId := map[]];
      }
      if contextId !in userMemories[userId] {
        b := new Buffer();
        RegisterKeepsUnshared(userMemories, userId, contextId, b);
        userMemories := userMemories[userId := userMemories[userId][contextId := b]];
      } else {
        b := userMemories[userId][contextId];
      }
    }

    /** `get_memory(user_id)`: the default context. */
    method GetDefaultMemory(userId: string) returns (b: Buffer)
      requires Valid()
      modifies this
      ensures Valid()
      ensures userId in userMemories && DefaultContext in userMemories[userId] && userMemories[userId][DefaultContext] == b
      ensures userId in old(userMemories) && DefaultContext in old(userMemories)[userId] ==>
                b == old(userMemories)[userId][DefaultContext] && userMemories == old(userMemories)
      ensures !(userId in old(userMemories) && DefaultContext in old(userMemories)[userId]) ==>
                fresh(b) && b.messages == []
                && userMemories == old(userMemories)[userId := Contexts(old(userMemories), userId)[DefaultContext := b]]
    {
      b := GetMemory(userId, DefaultContext);
    }

    /** `clear_memory(user_id, context_id)`: a non-empty context id empties that one buffer if it exists;
        None or the empty string empties every buffer of the user. An unknown user changes nothing, and
        the map itself never changes. */
    method ClearMemory(userId: string, contextId: Option<string>)
      requires Valid()
      modifies if userId in userMemories then userMemories[userId].Values else {}
      ensures Valid() && userMemories == old(userMemories)
      ensures userId in userMemories && contextId.Some? && contextId.value != "" && contextId.value in userMemories[userId] ==>
                userMemories[userId][contextId.value].messages == []
      ensures userId in userMemories && (contextId.None? || contextId.value == "") ==>
                forall c :: c in userMemories[userId] ==> userMemories[userId][c].messages == []
      ensures forall u, c :: u in userMemories && c in userMemories[u] && Untouched(userId, contextId, u, c) ==>
                userMemories[u][c].messages == old(userMemories[u][c].messages)
    {
      if userId !in userMemories {
        return;
      }
      var contexts := userMemories[userId];
      if contextId.Some? && contextId.value != "" {
        if contextId.value in contexts {
          contexts[contextId.value].Clear();
        }
        return;
      }
      var todo := contexts.Values;
      while todo != {}
        invariant todo <= contexts.Values
        invariant forall c :: c in contexts && contexts[c] !in todo ==> contexts[c].messages == []
        invariant forall b :: b in todo ==> b.messages == old(b.messages)
        decreases todo
      {
        var b :| b in todo;
        b.Clear();
        todo := todo - {b};
      }
    }
  }

  /** No buffer is shared between two (user, context) entries. */
  ghost predicate Unshared(m: map<string, map<string, Buffer>>) {
    forall u1, c1, u2, c2 ::
      (u1 in m && c1 in m[u1] && u2 in m && c2 in m[u2] && (u1 != u2 || c1 != c2)) ==> m[u1][c1] != m[u2][c2]
  }

  /** Registering a buffer found nowhere in the map keeps every buffer unshared. */
  lemma RegisterKeepsUnshared(m: map<string, map<string, Buffer>>, userId: string, contextId: string, b: Buffer)
    requires Unshared(m) && userId in m
    requires forall u, c :: u in m && c in m[u] ==> m[u][c] != b
    ensures Unshared(m[userId := m[userId][contextId := b]])
  {
  }

  /** The contexts of a user, empty for an unknown user. */
  function Contexts(m: map<string, map<string, Buffer>>, userId: string): map<string, Buffer> {
    if userId in m then m[userId] else map[]
  }

  /** The (user, context) pairs a clear leaves alone: other users always, and the user's other contexts
      when a context was named. */
  predicate Untouched(userId: string, contextId: Option<string>, u: string, c: string) {
    u != userId || (contextId.Some? && contextId.value != "" && c != contextId.value)
  }

  /** Asking twice for the same pair gives the same buffer and registers nothing new. */
  method SameBufferTwice(m: MemoryManager, userId: string, contextId: string) returns (b1: Buffer, b2: Buffer)
    requires m.Valid()
    modifies m
    ensures b1 == b2
    ensures userId in m.userMemories && contextId in m.userMemories[userId] && m.userMemories[userId][contextId] == b1
    ensures userId in old(m.userMemories) && contextId in old(m.userMemories)[userId] ==>
              m.userMemories == old(m.userMemories)
    ensures !(userId in old(m.userMemories) && contextId in old(m.userMemories)[userId]) ==>
              fresh(b1) && b1.messages == []
              && m.userMemories == old(m.userMemories)[userId := Contexts(old(m.userMemories), userId)[contextId := b1]]
  {
    b1 := m.GetMemory(userId, contextId);
    b2 := m.GetMemory(userId, contextId);
  }
}
