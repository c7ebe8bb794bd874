/** The HTTP client both CA clients use: a script of replies, and a record of what was asked. */
module Http {
  import opened Pages

  class Transport {
    var replies: seq<Reply>
    var sent: seq<Request>

    constructor (replies: seq<Reply>)
      ensures this.replies == replies && sent == []
    {
      this.replies := replies;
      sent := [];
    }

    /** These requests went out since, and used up one reply each. */
    ghost predicate Served(before: seq<Reply>, sentBefore: seq<Request>, requests: seq<Request>)
      reads this
    {
      sent == sentBefore + requests && replies == Drop(before, |requests|)
    }

    lemma ServedTwice(before: seq<Reply>, sentBefore: seq<Request>, first: seq<Request>, second: seq<Request>)
      requires Served(Drop(before, |first|), sentBefore + first, second)
      ensures Served(before, sentBefore, first + second)
    {
      assert (sentBefore + first) + second == sentBefore + (first + second);
    }

    method Do(request: Request) returns (reply: Reply)
      modifies this
      ensures reply == Head(old(replies)) && Served(old(replies), old(sent), [request])
    {
      reply := Head(replies);
      replies := Drop(replies, 1);
      sent := sent + [request];
    }
  }
}
