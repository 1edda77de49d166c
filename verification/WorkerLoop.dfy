/** The worker process itself: the loop of worker.py that reads request lines and
    writes one reply line for each. */
module WorkerLoop {
  import opened JsonValues
  import PoolMachine
  import Protocol
  import opened Wrappers

  /** A stdin line after json.loads: blank, not an object, or a call. `messages` is
      absent when the payload has none. */
  datatype InLine = Blank | Malformed | Call(id: Option<int>, messages: Option<Json>)

  /** What headroom's compress() does when reached. */
  datatype Attempt = Raises | Returns(result: Protocol.Result)

  datatype Reply = OkReply(id: Option<int>, result: Protocol.Result) | ErrReply(id: Option<int>)

  /** This reply is the one to this line: the result of compress() if the line is a call
      with a list of messages and compress() returned, flagged cold as given, and an
      error otherwise, under the line's id, or no id if the line has none. */
  predicate IsReplyTo(line: InLine, attempt: Attempt, cold: bool, reply: Reply) {
    match line
    case Blank => false
    case Malformed => reply == ErrReply(None)
    case Call(id, messages) =>
      && reply.id == id
      && (reply.OkReply? <==> messages.Some? && messages.value.JArr? && attempt.Returns?)
      && (reply.OkReply? ==> reply.result == attempt.result.(cold := cold))
  }

  /** How many lines are not blank. */
  function Count(lines: seq<InLine>): nat {
    if lines == [] then 0
    else Count(lines[..|lines| - 1]) + if lines[|lines| - 1].Blank? then 0 else 1
  }

  /** None of these lines gets as far as compress(). */
  predicate NoneReached(lines: seq<InLine>) {
    forall k :: 0 <= k < |lines| && lines[k].Call? && lines[k].messages.Some? ==> !lines[k].messages.value.JArr?
  }

  /** These replies answer each line that is not blank once, at its place among them, and
      flag cold only the first that gets as far as compress(), if the process had not
      served before. */
  ghost predicate AnswersEach(lines: seq<InLine>, served: bool, attempts: seq<Attempt>, replies: seq<Reply>)
    requires |attempts| == |lines|
  {
    && |replies| == Count(lines)
    && forall n :: 0 <= n < |lines| && !lines[n].Blank? ==>
         && Count(lines[..n]) < |replies|
         && IsReplyTo(lines[n], attempts[n], !served && NoneReached(lines[..n]), replies[Count(lines[..n])])
  }

  lemma OneMoreAnswered(
    lines: seq<InLine>, served: bool, attempts: seq<Attempt>, n: nat, replies: seq<Reply>, more: seq<Reply>)
    requires |attempts| == |lines| && n < |lines| && AnswersEach(lines[..n], served, attempts[..n], replies)
    requires if lines[n].Blank? then more == []
             else |more| == 1 && IsReplyTo(lines[n], attempts[n], !served && NoneReached(lines[..n]), more[0])
    ensures AnswersEach(lines[..n + 1], served, attempts[..n + 1], replies + more)
  {
    var all := lines[..n + 1];
    assert all[..n] == lines[..n];
    forall k | 0 <= k < n ensures all[..k] == lines[..k] == lines[..n][..k] {}
  }

  class Process {
    var served: bool          // _served_a_request
    var out: seq<Reply>       // the protocol stream

    constructor ()
      ensures !served && out == []
    {
      served, out := false, [];
    }

    method Emit(reply: Reply)
      modifies this`out
      ensures out == old(out) + [reply]
    {
      out := out + [reply];
    }

    /** _compress: raises (None) before the flag flips when messages is not a list,
        and after it when compress() does. */
    method Compress(messages: Option<Json>, attempt: Attempt) returns (result: Option<Protocol.Result>)
      modifies this`served
      ensures served == (old(served) || (messages.Some? && messages.value.JArr?))
      ensures result.Some? <==> messages.Some? && messages.value.JArr? && attempt.Returns?
      ensures result.Some? ==> result.value == attempt.result.(cold := !old(served))
    {
      if messages.None? || !messages.value.JArr? {
        return None;
      }
      var coldFirstCall := !served;
      served := true;
      match attempt
      case Raises => result := None;
      case Returns(r) => result := Some(r.(cold := coldFirstCall));
    }

    /** One turn of the loop. */
    method Handle(line: InLine, attempt: Attempt) returns (ghost more: seq<Reply>)
      modifies this
      ensures out == old(out) + more
      ensures served == (old(served) || (line.Call? && line.messages.Some? && line.messages.value.JArr?))
      ensures if line.Blank? then more == [] else |more| == 1 && IsReplyTo(line, attempt, !old(served), more[0])
    {
      more := [];
      match line
      case Blank =>
      case Malformed =>
        more := [ErrReply(None)];
        Emit(ErrReply(None));
      case Call(id, messages) =>
        var result := Compress(messages, attempt);
        var reply := if result.Some? then OkReply(id, result.value) else ErrReply(id);
        more := [reply];
        Emit(reply);
    }

    /** The loop of main. */
    method Serve(lines: seq<InLine>, attempts: seq<Attempt>) returns (ghost replies: seq<Reply>)
      requires |attempts| == |lines|
      modifies this
      ensures out == old(out) + replies && AnswersEach(lines, old(served), attempts, replies)
      ensures served == (old(served) || !NoneReached(lines))
    {
      replies := [];
      for n := 0 to |lines|
        invariant out == old(out) + replies
        invariant AnswersEach(lines[..n], old(served), attempts[..n], replies)
        invariant served == (old(served) || !NoneReached(lines[..n]))
      {
        ghost var more := Handle(lines[n], attempts[n]);
        OneMoreAnswered(lines, old(served), attempts, n, replies, more);
        OneMoreReached(lines, n);
        replies := replies + more;
      }
      assert lines[..|lines|] == lines && attempts[..|lines|] == attempts;
    }
  }

  lemma OneMoreReached(lines: seq<InLine>, n: nat)
    requires n < |lines|
    ensures NoneReached(lines[..n + 1])
            <==> NoneReached(lines[..n])
                 && !(lines[n].Call? && lines[n].messages.Some? && lines[n].messages.value.JArr?)
  {
    var all := lines[..n + 1];
    if NoneReached(all) {
      forall k | 0 <= k < n && lines[..n][k].Call? && lines[..n][k].messages.Some?
        ensures !lines[..n][k].messages.value.JArr? { assert all[k] == lines[..n][k]; }
      assert all[n] == lines[n];
    }
    forall k | 0 <= k < n ensures all[k] == lines[..n][k] {}
  }

  // ---------- What the protocol rests on ----------

  lemma FrontAnswered(lines: seq<InLine>, served: bool, attempts: seq<Attempt>, replies: seq<Reply>)
    requires |attempts| == |lines| > 0 && AnswersEach(lines, served, attempts, replies)
    ensures var front := lines[..|lines| - 1];
            && Count(front) <= |replies|
            && AnswersEach(front, served, attempts[..|lines| - 1], replies[..Count(front)])
  {
    var front := lines[..|lines| - 1];
    forall n | 0 <= n < |front| && !front[n].Blank?
      ensures Count(front[..n]) < Count(front)
      ensures front[..n] == lines[..n]
    {
      assert front[..n] == lines[..n];
      CountGrows(front, n);
    }
  }

  lemma {:induction false} CountGrows(lines: seq<InLine>, n: nat)
    requires n < |lines| && !lines[n].Blank?
    ensures Count(lines[..n]) < Count(lines)
  {
    var last := |lines| - 1;
    if n < last {
      assert lines[..last][..n] == lines[..n];
      CountGrows(lines[..last], n);
    }
  }

  ghost function LineIds(lines: seq<InLine>): seq<Option<int>> {
    if lines == [] then []
    else
      LineIds(lines[..|lines| - 1])
      + match lines[|lines| - 1]
        case Blank => []
        case Malformed => [None]
        case Call(id, _) => [id]
  }

  ghost function ReplyIds(replies: seq<Reply>): seq<Option<int>> {
    seq(|replies|, k requires 0 <= k < |replies| => replies[k].id)
  }

  /** One reply per non-blank line, in order, with that line's id. */
  lemma {:induction false} OneReplyPerLine(
    lines: seq<InLine>, served: bool, attempts: seq<Attempt>, replies: seq<Reply>)
    requires |attempts| == |lines| && AnswersEach(lines, served, attempts, replies)
    ensures ReplyIds(replies) == LineIds(lines)
  {
    if lines != [] {
      var front := lines[..|lines| - 1];
      FrontAnswered(lines, served, attempts, replies);
      OneReplyPerLine(front, served, attempts[..|lines| - 1], replies[..Count(front)]);
      assert ReplyIds(replies) == ReplyIds(replies[..Count(front)]) + ReplyIds(replies[Count(front)..]);
    }
  }

  ghost function OkReplies(replies: seq<Reply>): nat {
    if replies == [] then 0
    else OkReplies(replies[..|replies| - 1]) + if replies[|replies| - 1].OkReply? then 1 else 0
  }

  /** Calls with a list of messages on which compress() returns. */
  ghost function Compressed(lines: seq<InLine>, attempts: seq<Attempt>): nat
    requires |attempts| == |lines|
  {
    if lines == [] then 0
    else
      var n := |lines| - 1;
      Compressed(lines[..n], attempts[..n])
      + match lines[n]
        case Call(_, Some(JArr(_))) => if attempts[n].Returns? then 1 else 0
        case _ => 0
  }

  /** As many replies are ok. */
  lemma {:induction false} OkExactly(lines: seq<InLine>, served: bool, attempts: seq<Attempt>, replies: seq<Reply>)
    requires |attempts| == |lines| && AnswersEach(lines, served, attempts, replies)
    ensures OkReplies(replies) == Compressed(lines, attempts)
  {
    if lines != [] {
      var n := |lines| - 1;
      FrontAnswered(lines, served, attempts, replies);
      OkExactly(lines[..n], served, attempts[..n], replies[..Count(lines[..n])]);
      if lines[n].Blank? { assert replies[..Count(lines[..n])] == replies; }
    }
  }

  predicate Cold(reply: Reply) { reply.OkReply? && reply.result.cold }

  lemma {:induction false} ColdHasReached(
    lines: seq<InLine>, served: bool, attempts: seq<Attempt>, replies: seq<Reply>, m: nat)
    requires |attempts| == |lines| && AnswersEach(lines, served, attempts, replies)
    requires m < |replies| && Cold(replies[m])
    ensures !served && !NoneReached(lines)
  {
    var n := |lines| - 1;
    FrontAnswered(lines, served, attempts, replies);
    if m < Count(lines[..n]) {
      ColdHasReached(lines[..n], served, attempts[..n], replies[..Count(lines[..n])], m);
      var k :| 0 <= k < n && lines[..n][k].Call? && lines[..n][k].messages.Some? && lines[..n][k].messages.value.JArr?;
      assert lines[k] == lines[..n][k];
    }
  }

  /** A process flags at most one reply cold, and none once it has served. */
  lemma {:induction false} AtMostOneCold(
    lines: seq<InLine>, served: bool, attempts: seq<Attempt>, replies: seq<Reply>, m: nat, n: nat)
    requires |attempts| == |lines| && AnswersEach(lines, served, attempts, replies)
    requires m < |replies| && n < |replies| && Cold(replies[m]) && Cold(replies[n])
    ensures m == n && !served
  {
    var last := |lines| - 1;
    var before := Count(lines[..last]);
    FrontAnswered(lines, served, attempts, replies);
    ColdHasReached(lines, served, attempts, replies, m);
    if m < before {
      ColdHasReached(lines[..last], served, attempts[..last], replies[..before], m);
    } else if n < before {
      ColdHasReached(lines[..last], served, attempts[..last], replies[..before], n);
    }
    if m < before && n < before {
      AtMostOneCold(lines[..last], served, attempts[..last], replies[..before], m, n);
    }
  }

  /** The line the supervisor sees for a reply. A null id decodes as zero. */
  function AsLine(reply: Reply): Protocol.Line {
    var id := if reply.id.Some? then reply.id.value else 0;
    match reply
    case OkReply(_, result) => Protocol.OkLine(id, result)
    case ErrReply(_) => Protocol.ErrLine(id)
  }

  function AsCall(request: Protocol.In): InLine {
    Call(Some(request.id), Some(request.req.messages))
  }

  /** What the pool assumes of a worker holds of this loop: its reply to a request line
      conforms, provided compress() itself returns good results (the cold flag is this
      loop's, not compress()'s); and it is an ok line exactly if the messages are a list
      and compress() returned. */
  lemma LoopConforms(
    cfg: PoolMachine.Config, served: bool, request: Protocol.In, attempt: Attempt, reply: Reply)
    requires attempt.Returns? ==> forall flag :: cfg.good(request.req, attempt.result.(cold := flag))
    requires IsReplyTo(AsCall(request), attempt, !served, reply)
    ensures AsLine(reply) == if request.req.messages.JArr? && attempt.Returns?
                             then Protocol.OkLine(request.id, attempt.result.(cold := !served))
                             else Protocol.ErrLine(request.id)
    ensures PoolMachine.Conforms(cfg, served, request, AsLine(reply), request.req.messages.JArr?)
  {
    if reply.OkReply? {
      assert cfg.good(request.req, attempt.result.(cold := !served));
    }
  }
}
