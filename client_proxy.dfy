/** `ClientProxy.send` of @nestjs/microservices, reduced to one request and
    one reply per call. The transport is an oracle: `reply(n, pattern, data)`
    is what the n-th call answers, a value or an error (remote exception,
    timeout, refused connection). */
module ClientProxy {
  import opened Common

  datatype Message<Q> = Message(pattern: string, data: Q)

  class Client<Q, A> {
    const reply: (nat, string, Q) -> Result<A, Exception>
    /** Every message sent so far, in order; its length counts the calls. */
    var sent: seq<Message<Q>>

    constructor (reply: (nat, string, Q) -> Result<A, Exception>)
      ensures this.reply == reply && sent == []
    {
      this.reply := reply;
      sent := [];
    }

    method Send(pattern: string, data: Q) returns (r: Result<A, Exception>)
      modifies this
      ensures sent == old(sent) + [Message(pattern, data)]
      ensures r == reply(|old(sent)|, pattern, data)
    {
      r := reply(|sent|, pattern, data);
      sent := sent + [Message(pattern, data)];
    }
  }
}
