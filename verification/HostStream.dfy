// One HTTP tunnel stream on the host: which head it answers with, whatever fails
// or times out on the way (src/host.rs).

module HostStream {
  import opened Bytes
  import opened Frames

  // Where the handler stands; writes happen byte by byte, so that a timeout can
  // cut them anywhere.
  datatype Pc =
    | Judging
    | Forwarding
    | Answered(reply: Bytes)
    | Replying(reply: Bytes, count: nat)
    | Handling(status: nat)
    | Refusing(status: nat, count: nat)
    | Ended

  datatype Stream = Stream(
    pc: Pc,
    started: bool,
    sent: Bytes,
    reply: Option<Bytes>,   // the answer forwarding produced: head frame and body
    refusal: Option<nat>)   // the status of the error head

  const Fresh: Stream := Stream(Judging, false, [], None, None)

  datatype Action =
    | Reject(status: nat)
    | Accept
    | Answer(head: Bytes, body: Bytes)
    | StoreStarted
    | Write
    | ForwardFails(status: nat)
    | DeadlinePasses
    | Handle
    | Done

  function ErrorHead(heads: nat -> Bytes, status: nat): Bytes
    requires |heads(status)| < U32_LIMIT
  {
    Frame(heads(status))
  }

  ghost predicate Encodable(heads: nat -> Bytes) {
    forall status :: |heads(status)| < U32_LIMIT
  }

  // The forwarding future is running, and can fail or be dropped at the deadline.
  predicate InForward(pc: Pc) {
    pc == Forwarding || pc.Answered? || pc.Replying?
  }

  ghost predicate Can(heads: nat -> Bytes, s: Stream, a: Action)
    requires Encodable(heads)
  {
    match a
    case Reject(_) => s.pc == Judging
    case Accept => s.pc == Judging
    case Answer(head, _) => s.pc == Forwarding && |head| < U32_LIMIT
    case StoreStarted => s.pc.Answered?
    case Write =>
      || (s.pc.Replying? && s.pc.count < |s.pc.reply|)
      || (s.pc.Refusing? && s.pc.count < |ErrorHead(heads, s.pc.status)|)
    case ForwardFails(_) => InForward(s.pc)
    case DeadlinePasses => InForward(s.pc) || s.pc.Refusing?
    case Handle => s.pc.Handling?
    case Done => s.pc.Replying? || s.pc.Refusing?
  }

  ghost function Next(heads: nat -> Bytes, s: Stream, a: Action): Stream
    requires Encodable(heads) && Can(heads, s, a)
  {
    match a
    case Reject(status) => s.(pc := Refusing(status, 0), refusal := Some(status))
    case Accept => s.(pc := Forwarding)
    case Answer(head, body) => s.(pc := Answered(Frame(head) + body), reply := Some(Frame(head) + body))
    case StoreStarted => s.(pc := Replying(s.pc.reply, 0), started := true)
    case Write =>
      if s.pc.Replying? then
        s.(pc := Replying(s.pc.reply, s.pc.count + 1), sent := s.sent + [s.pc.reply[s.pc.count]])
      else
        s.(pc := Refusing(s.pc.status, s.pc.count + 1), sent := s.sent + [ErrorHead(heads, s.pc.status)[s.pc.count]])
    case ForwardFails(status) => s.(pc := Handling(status))
    case DeadlinePasses => if s.pc.Refusing? then s.(pc := Ended) else s.(pc := Handling(504))
    case Handle =>
      if s.started then s.(pc := Ended)
      else s.(pc := Refusing(s.pc.status, 0), refusal := Some(s.pc.status))
    case Done => s.(pc := Ended)
  }

  ghost predicate Runs(heads: nat -> Bytes, actions: seq<Action>)
    requires Encodable(heads)
    decreases |actions|, 0
  {
    actions == [] || (
      && Runs(heads, actions[..|actions|-1])
      && Can(heads, After(heads, actions[..|actions|-1]), actions[|actions|-1]))
  }

  ghost function After(heads: nat -> Bytes, actions: seq<Action>): Stream
    requires Encodable(heads) && Runs(heads, actions)
    decreases |actions|, 1
  {
    if actions == [] then Fresh else Next(heads, After(heads, actions[..|actions|-1]), actions[|actions|-1])
  }

  ghost predicate Inv(heads: nat -> Bytes, s: Stream)
    requires Encodable(heads)
  {
    && (s.pc.Replying? ==>
          s.started && s.reply == Some(s.pc.reply) && s.pc.count <= |s.pc.reply| && s.sent == s.pc.reply[..s.pc.count])
    && (s.pc.Refusing? ==>
          var head := ErrorHead(heads, s.pc.status);
          !s.started && s.refusal == Some(s.pc.status) && s.pc.count <= |head| && s.sent == head[..s.pc.count])
    && (s.pc.Answered? ==> s.reply == Some(s.pc.reply))
    && (s.pc == Judging || s.pc == Forwarding || s.pc.Answered? ==> !s.started && s.sent == [] && s.refusal.None?)
    && (s.pc.Handling? && !s.started ==> s.sent == [])
    && (s.started ==> s.refusal.None?)
    && OneHead(heads, s)
  }

  // Everything written belongs to one head: the answer's if it was started, and
  // otherwise the error head's.
  ghost predicate OneHead(heads: nat -> Bytes, s: Stream)
    requires Encodable(heads)
  {
    if s.started then s.reply.Some? && s.sent <= s.reply.value
    else s.sent == [] || (s.refusal.Some? && s.sent <= ErrorHead(heads, s.refusal.value))
  }

  lemma Step(heads: nat -> Bytes, s: Stream, a: Action)
    requires Encodable(heads) && Inv(heads, s) && Can(heads, s, a)
    ensures Inv(heads, Next(heads, s, a))
  {
    hide Frame;
    if a.Write? {
      var full := if s.pc.Replying? then s.pc.reply else ErrorHead(heads, s.pc.status);
      assert full[..s.pc.count] + [full[s.pc.count]] == full[..s.pc.count + 1];
    }
  }

  lemma {:induction false} RunInv(heads: nat -> Bytes, actions: seq<Action>)
    requires Encodable(heads) && Runs(heads, actions)
    ensures Inv(heads, After(heads, actions))
    decreases |actions|
  {
    hide Can, Next, Frame;
    if actions != [] {
      RunInv(heads, actions[..|actions|-1]);
      Step(heads, After(heads, actions[..|actions|-1]), actions[|actions|-1]);
    }
  }

  // At every point of every run the stream holds a prefix of one head and its
  // body, and once the answer was started no error head follows.
  lemma AtMostOneHead(heads: nat -> Bytes, actions: seq<Action>)
    requires Encodable(heads) && Runs(heads, actions)
    ensures OneHead(heads, After(heads, actions))
    ensures After(heads, actions).started ==> !After(heads, actions).pc.Refusing? && After(heads, actions).refusal.None?
  {
    RunInv(heads, actions);
  }

  // ----- what a failure leads to -----

  // A failure before the answer was started is answered: with 504 at the deadline,
  // and else with the status of the failure. One after it ends the stream.
  lemma FailureIsAnswered(heads: nat -> Bytes, s: Stream, a: Action)
    requires Encodable(heads) && Inv(heads, s) && InForward(s.pc) && (a == DeadlinePasses || a.ForwardFails?)
    ensures Can(heads, s, a)
    ensures var failed := Next(heads, s, a); var status := if a == DeadlinePasses then 504 else a.status;
            && Can(heads, failed, Handle)
            && var next := Next(heads, failed, Handle);
               if s.started then next.pc == Ended && next.sent == s.sent
               else next.pc == Refusing(status, 0) && next.refusal == Some(status) && next.sent == []
  {
    hide Frame;
  }

  // Refusals before forwarding are answered with their status at once.
  lemma RejectionIsAnswered(heads: nat -> Bytes, s: Stream, status: nat)
    requires Encodable(heads) && Inv(heads, s) && s.pc == Judging
    ensures Can(heads, s, Reject(status))
    ensures var next := Next(heads, s, Reject(status)); next.pc == Refusing(status, 0) && next.sent == []
  {
    hide Frame;
  }

  // Each write adds the next byte of the error head, or of the answer; with all
  // written, the whole of it is on the stream.
  lemma {:induction false} WritesGoOn(heads: nat -> Bytes, s: Stream, n: nat) returns (t: Stream)
    requires Encodable(heads) && Inv(heads, s) && (s.pc.Refusing? || s.pc.Replying?)
    requires n == |if s.pc.Refusing? then Frame(heads(s.pc.status)) else s.pc.reply| - s.pc.count
    ensures Inv(heads, t) && t.started == s.started && t.refusal == s.refusal && t.reply == s.reply
    ensures t.sent == if s.pc.Refusing? then Frame(heads(s.pc.status)) else s.pc.reply
    decreases n
  {
    hide Frame;
    if n == 0 {
      t := s;
      var whole := if s.pc.Refusing? then Frame(heads(s.pc.status)) else s.pc.reply;
      assert whole[..|whole|] == whole;
    } else {
      assert Can(heads, s, Write);
      Step(heads, s, Write);
      t := WritesGoOn(heads, Next(heads, s, Write), n - 1);
    }
  }

  // An answer goes out only once it is marked as started, and as it was produced.
  lemma AnswerIsStarted(heads: nat -> Bytes, s: Stream, head: Bytes, body: Bytes)
    requires Encodable(heads) && Inv(heads, s) && s.pc == Forwarding && |head| < U32_LIMIT
    ensures Can(heads, s, Answer(head, body)) && Can(heads, Next(heads, s, Answer(head, body)), StoreStarted)
    ensures var next := Next(heads, Next(heads, s, Answer(head, body)), StoreStarted);
            next.started && next.pc == Replying(Frame(head) + body, 0) && next.sent == []
  {
    hide Frame;
  }

  // An accepted request is forwarded; a stream whose write ended is over.
  lemma StreamGoesOn(heads: nat -> Bytes, s: Stream)
    requires Encodable(heads)
    ensures s.pc == Judging ==> Can(heads, s, Accept) && Next(heads, s, Accept) == s.(pc := Forwarding)
    ensures s.pc.Replying? || s.pc.Refusing? ==> Can(heads, s, Done) && Next(heads, s, Done) == s.(pc := Ended)
  {
  }
}
