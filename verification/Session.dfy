/** The message and session types of the agent, and what it means for a history to
    answer every tool call it holds. */
module Conversation {

  datatype Role = System | User | Assistant | Tool

  datatype ToolCall = ToolCall(id: string, name: string, args: string)

  /** callId and name are set on tool messages, calls on assistant messages; origin is
      empty except on messages the runtime injects. */
  datatype Message = Message(role: Role, content: string, calls: seq<ToolCall>, callId: string, name: string, origin: string)

  function Plain(role: Role, content: string): Message {
    Message(role, content, [], "", "", "")
  }

  function ToolMessage(id: string, name: string, content: string): Message {
    Message(Tool, content, [], id, name, "")
  }

  predicate HasCalls(m: Message) {
    m.role == Assistant && m.calls != []
  }

  /** Some tool message after position i carries the id. */
  ghost predicate AnsweredAfter(h: seq<Message>, i: int, id: string) {
    exists j :: 0 <= j && i < j < |h| && h[j].role == Tool && h[j].callId == id
  }

  ghost predicate CallsAnswered(h: seq<Message>, i: int)
    requires 0 <= i < |h|
  {
    forall c :: c in h[i].calls ==> AnsweredAfter(h, i, c.id)
  }

  /** Every persisted tool call has a later tool message with its id. */
  ghost predicate AllAnswered(h: seq<Message>) {
    forall i :: 0 <= i < |h| && HasCalls(h[i]) ==> CallsAnswered(h, i)
  }

  /** The same, except perhaps for the latest assistant message with calls. */
  ghost predicate AnsweredButLast(h: seq<Message>) {
    forall i, k :: 0 <= i < k < |h| && HasCalls(h[i]) && HasCalls(h[k]) ==> CallsAnswered(h, i)
  }

  lemma {:induction false} AnsweredAfterAppend(h: seq<Message>, t: seq<Message>, i: int)
    requires 0 <= i < |h| && CallsAnswered(h, i)
    ensures CallsAnswered(h + t, i)
  {
    forall c | c in h[i].calls ensures AnsweredAfter(h + t, i, c.id) {
      assert AnsweredAfter(h, i, c.id);
      var j :| i < j < |h| && h[j].role == Tool && h[j].callId == c.id;
      assert (h + t)[j] == h[j];
    }
  }
}

/** One conversation thread: the LLM-facing history and the buffers that the agent loop
    and the slash commands exchange. Every method is one critical section. */
module SessionState {
  import opened Conversation

  datatype Mode = Unset | Ask | Auto | Yolo

  /** PushSteerIfActive on the buffer: accepted only while a turn is in flight. */
  function Pushed<T>(depth: nat, buf: seq<T>, m: T): seq<T> {
    if depth == 0 then buf else buf + [m]
  }

  function DepthAfterEnd(depth: nat): nat {
    if depth > 0 then depth - 1 else 0
  }

  /** What EndTurn hands back: the whole buffer, but only to the last turn in flight. */
  function Leftover<T>(depth: nat, buf: seq<T>): seq<T> {
    if DepthAfterEnd(depth) > 0 then [] else buf
  }

  function BufferAfterEnd<T>(depth: nat, buf: seq<T>): seq<T> {
    if DepthAfterEnd(depth) > 0 then buf else []
  }

  class Session {
    var messages: seq<Message>
    var turnDepth: nat
    var steerBuf: seq<Message>
    var authMode: Mode
    var pendingCalls: seq<ToolCall>
    var approvedPending: seq<ToolCall>

    constructor ()
      ensures messages == [] && turnDepth == 0 && steerBuf == []
      ensures authMode == Unset && pendingCalls == [] && approvedPending == []
    {
      messages, turnDepth, steerBuf, authMode := [], 0, [], Unset;
      pendingCalls, approvedPending := [], [];
    }

    method Append(m: Message)
      modifies this`messages
      ensures messages == old(messages) + [m]
    {
      messages := messages + [m];
    }

    method ReplaceMessages(ms: seq<Message>)
      modifies this`messages
      ensures messages == ms
    {
      messages := ms;
    }

    method BeginTurn()
      modifies this`turnDepth
      ensures turnDepth == old(turnDepth) + 1
    {
      turnDepth := turnDepth + 1;
    }

    /** The last turn to end takes what is still buffered. */
    method EndTurn() returns (leftover: seq<Message>)
      modifies this`turnDepth, this`steerBuf
      ensures turnDepth == DepthAfterEnd(old(turnDepth))
      ensures leftover == Leftover(old(turnDepth), old(steerBuf))
      ensures steerBuf == BufferAfterEnd(old(turnDepth), old(steerBuf))
    {
      if turnDepth > 0 {
        turnDepth := turnDepth - 1;
      }
      if turnDepth > 0 || |steerBuf| == 0 {
        return [];
      }
      leftover := steerBuf;
      steerBuf := [];
    }

    method PushSteerIfActive(m: Message) returns (accepted: bool)
      modifies this`steerBuf
      ensures accepted <==> turnDepth > 0
      ensures steerBuf == Pushed(turnDepth, old(steerBuf), m)
    {
      if turnDepth == 0 {
        return false;
      }
      steerBuf := steerBuf + [m];
      return true;
    }

    method DrainSteer() returns (drained: seq<Message>)
      modifies this`steerBuf
      ensures drained == old(steerBuf) && steerBuf == []
    {
      drained := steerBuf;
      steerBuf := [];
    }

    method SetAuthMode(mode: Mode)
      modifies this`authMode
      ensures authMode == mode
    {
      authMode := mode;
    }

    method PushPendingCalls(calls: seq<ToolCall>)
      modifies this`pendingCalls
      ensures pendingCalls == old(pendingCalls) + calls
    {
      pendingCalls := pendingCalls + calls;
    }

    method PopPendingCalls() returns (calls: seq<ToolCall>)
      modifies this`pendingCalls
      ensures calls == old(pendingCalls) && pendingCalls == []
    {
      calls := pendingCalls;
      pendingCalls := [];
    }

    /** Overwrites: an earlier approval that was not drained yet is forgotten. */
    method SetApprovedPending(calls: seq<ToolCall>)
      modifies this`approvedPending
      ensures approvedPending == calls
    {
      approvedPending := calls;
    }

    method DrainApprovedPending() returns (calls: seq<ToolCall>)
      modifies this`approvedPending
      ensures calls == old(approvedPending) && approvedPending == []
    {
      calls := approvedPending;
      approvedPending := [];
    }
  }
}
