/** From the replies of the CA's web server to the protocol: what was sent, and what the client reads. */
module Replies {
  import opened Base
  import Api
  import M = Protocol
  import P = Pages

  /** What a client result means to the protocol; an unsound one would be a failure. */
  function PollReplyOf(o: P.Outcome): M.PollReply {
    if P.Failed(o) then M.PollFailed
    else match o.answer
      case Pending => M.PollPending(o.text)
      case Ready => M.PollReady(o.text)
      case Rejected => M.PollRejected(o.text)
      case Errored => M.PollErrored(o.text)
      case Unknown => M.PollFailed
  }

  /** What the client makes of the reply to a submission; without one, `received` tells whether the CA got it. */
  function PostReplyOf(reply: P.Reply, received: bool): M.PostReply {
    match P.AfterPost(reply)
    case AskFor(id) => M.Numbered(id)
    case Done(o) =>
      if !P.Failed(o) then M.Inline(o.text)
      else if reply.NoReply? && !received then M.NotSent
      else M.NoAnswer
  }

  datatype Sent = Sent(answer: M.CaAnswer, wire: M.Wire)

  /**
   What the CA sent, going by the reply itself: the number its page gives, or the
   certificate, of which a part may be `missing`. Where the client reads nothing,
   it may have been anything, `unread`.
   */
  function SentBy(reply: P.Reply, received: bool, unread: M.CaAnswer, missing: Bytes): Sent {
    match P.AfterPost(reply)
    case AskFor(id) =>
      P.NumberRead(reply.body);
      Sent(M.Number(P.PageNumber(reply.body).value), if P.NumberEndsLine(reply.body) then M.AtLineEnd else M.Whole)
    case Done(o) =>
      if P.Failed(o) then Sent(unread, if reply.NoReply? && !received then M.Unsent else M.Lost)
      else if reply.Response? && reply.broken then Sent(M.Certificate(o.text + missing), M.BrokenOff(|o.text|))
      else Sent(M.Certificate(o.text), M.Whole)
  }

  /** The client's reading is the protocol's reading of what was sent. */
  lemma ReadsWhatWasSent(reply: P.Reply, received: bool, unread: M.CaAnswer, missing: Bytes)
    ensures var s := SentBy(reply, received, unread, missing);
            && M.Read(s.answer, s.wire) == PostReplyOf(reply, received)
            && (s.answer == unread || !s.answer.Number? || Api.IsDecimal(s.answer.id))
  {
    P.PostContract(reply);
    if P.AfterPost(reply).AskFor? {
      P.NumberRead(reply.body);
    } else {
      var o := P.AfterPost(reply).outcome;
      if !P.Failed(o) { assert (o.text + missing)[..|o.text|] == o.text; }
    }
  }

  /** What the server sent arrives, whole or broken off. */
  predicate Arrives(sent: P.Reply, got: P.Reply) {
    && sent.Response? && !sent.broken && got.Response?
    && (got == sent || (got == sent.(body := got.body, broken := true) && got.body <= sent.body))
  }

  /** What the server says with a whole reply. */
  function AnswerOf(sent: P.Reply): M.CaAnswer
    requires sent.Response?
  {
    if sent.contentType == P.CT_PKIX then M.Certificate(sent.body)
    else
      var number := P.PageNumber(sent.body);
      if number.Some? then M.Number(number.value) else M.Nothing
  }

  /**
   What is read from a reply that arrives. A certificate is always read, and it is
   the one sent if and only if all of it arrives. A number is read if and only if
   the page arrives whole and has one, and it is the one sent if and only if it is
   in a link or its line goes on. The protocol reads just so.
   */
  lemma ReplyIsFaithful(sent: P.Reply, got: P.Reply, received: bool, unread: M.CaAnswer)
    requires Arrives(sent, got)
    ensures var (answer, read) := (AnswerOf(sent), PostReplyOf(got, received));
            && (read.Inline? <==> answer.Certificate?)
            && (read.Numbered? <==> answer.Number? && got == sent)
            && (read.Inline? ==> (answer == M.Certificate(read.cert) <==> |got.body| == |sent.body|))
            && (read.Numbered? ==> (answer == M.Number(read.id) <==> !P.NumberEndsLine(sent.body)))
            && (read.Inline? || read.Numbered? ==>
                SentBy(got, received, unread, sent.body[|got.body|..]).answer == answer)
  {
    P.PostContract(got);
    P.NumberRead(sent.body);
    assert got.body + sent.body[|got.body|..] == sent.body;
  }
}
