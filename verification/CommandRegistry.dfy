/** The bridge's bounded memory of acknowledged commands. */
module CommandRegistry {
  import opened Options

  type CommandId = string

  datatype Ack = Ack(commandId: CommandId, sessionId: string, lastSequence: nat)

  /** What a repeated command is answered with: the stored acknowledgement, marked as a duplicate. */
  datatype Answer = Answer(ack: Ack, duplicate: bool)

  // -------------------------------------------------------- as a value ---

  ghost predicate DistinctIds(entries: seq<Ack>) {
    forall i, j :: 0 <= i < j < |entries| ==> entries[i].commandId != entries[j].commandId
  }

  ghost predicate Holds(entries: seq<Ack>, id: CommandId) {
    exists i :: 0 <= i < |entries| && entries[i].commandId == id
  }

  ghost function Find(entries: seq<Ack>, id: CommandId): (found: Option<Ack>)
    ensures found.Some? <==> Holds(entries, id)
    ensures found.Some? ==> found.value in entries && found.value.commandId == id
  {
    if i :| 0 <= i < |entries| && entries[i].commandId == id then Some(entries[i]) else None
  }

  /** Setting a key of an insertion-ordered map: in place if it is there, at the end if not. */
  ghost function Put(entries: seq<Ack>, ack: Ack): (after: seq<Ack>) {
    if Holds(entries, ack.commandId)
    then seq(|entries|, i requires 0 <= i < |entries| => if entries[i].commandId == ack.commandId then ack else entries[i])
    else entries + [ack]
  }

  ghost function Trim(entries: seq<Ack>, capacity: nat): (after: seq<Ack>)
    ensures |after| == if capacity < |entries| then capacity else |entries|
    ensures after == entries[|entries| - |after|..]
  {
    if capacity < |entries| then entries[|entries| - capacity..] else entries
  }

  ghost function Remembered(entries: seq<Ack>, ack: Ack, capacity: nat): seq<Ack> {
    Trim(Put(entries, ack), capacity)
  }

  lemma PutKeepsDistinct(entries: seq<Ack>, ack: Ack)
    requires DistinctIds(entries)
    ensures DistinctIds(Put(entries, ack))
  {
    forall i, j | 0 <= i < j < |Put(entries, ack)|
      ensures Put(entries, ack)[i].commandId != Put(entries, ack)[j].commandId
    {
      if !Holds(entries, ack.commandId) && j < |entries| {
        assert entries[i].commandId != entries[j].commandId;
      }
    }
  }

  // ------------------------------------------------------- as an object ---

  class CommandRegistry {
    const capacity: nat
    /** The map's entries, oldest first. */
    var commands: seq<Ack>

    ghost predicate Valid()
      reads this
    {
      capacity > 0 && |commands| <= capacity && DistinctIds(commands)
    }

    constructor (capacity: nat)
      requires capacity > 0
      ensures Valid() && commands == [] && this.capacity == capacity
    {
      this.capacity := capacity;
      commands := [];
    }

    method Get(id: CommandId) returns (answer: Option<Answer>)
      requires Valid()
      ensures answer == match Find(commands, id) case None => None case Some(ack) => Some(Answer(ack, true))
    {
      for i := 0 to |commands|
        invariant forall j :: 0 <= j < i ==> commands[j].commandId != id
      {
        if commands[i].commandId == id {
          assert Holds(commands, id);
          return Some(Answer(commands[i], true));
        }
      }
      return None;
    }

    /** Remembers an acknowledgement and forgets the oldest ones beyond capacity. */
    method Remember(ack: Ack)
      requires Valid()
      modifies this
      ensures Valid()
      ensures commands == Remembered(old(commands), ack, capacity)
    {
      PutKeepsDistinct(commands, ack);
      SetKey(ack);
      ghost var put := commands;
      while |commands| > capacity
        invariant |commands| <= |put| && commands == put[|put| - |commands|..]
        invariant |put| >= capacity ==> |commands| >= capacity
        invariant |put| < capacity ==> commands == put
        decreases |commands|
      {
        commands := commands[1..];
      }
    }

    method SetKey(ack: Ack)
      modifies this
      ensures commands == Put(old(commands), ack)
    {
      var found := false;
      var updated: seq<Ack> := [];
      for i := 0 to |commands|
        invariant |updated| == i
        invariant found <==> exists j :: 0 <= j < i && commands[j].commandId == ack.commandId
        invariant forall j :: 0 <= j < i ==> updated[j] == if commands[j].commandId == ack.commandId then ack else commands[j]
      {
        if commands[i].commandId == ack.commandId {
          found := true;
          updated := updated + [ack];
        } else {
          updated := updated + [commands[i]];
        }
      }
      if !found {
        updated := updated + [ack];
        assert updated == commands + [ack];
      }
      commands := updated;
    }
  }
}
