/**
 An HTTP request from its headers to its response: the states it goes through and the body that
 arrives in chunks. Bytes are characters here.
 */
module Requests {
  import opened Wrappers

  datatype Method = Get | Put | Post | Other

  datatype Stage = Created | Accepted | Completed | Responded

  /** request::impl. runs counts how often the handler for the body has run. */
  datatype Message = Message(stage: Stage, content: string, limit: nat, response: Option<int>, runs: nat)

  /** A failed assert, which ends the program. */
  datatype Abort = ResponseSetTwice | NotAccepted

  const TOO_LARGE := 413

  function NewMessage(limit: nat): Message {
    Message(Created, "", limit, None, 0)
  }

  function Accept(m: Message): Message {
    m.(stage := Accepted)
  }

  function Respond(m: Message, code: int): Result<Message, Abort> {
    if m.response.Some? then Err(ResponseSetTwice)
    else Ok(m.(stage := Responded, response := Some(code)))
  }

  /** A chunk that does not fit any more is not stored; the request is answered instead. */
  function AddContent(m: Message, chunk: string): Result<Message, Abort> {
    if |m.content| + |chunk| <= m.limit then Ok(m.(content := m.content + chunk))
    else Respond(m, TOO_LARGE)
  }

  /** completeRequest, with what the handler responds to the content. None: it does not respond. */
  function Complete(m: Message, handler: string -> Option<int>): Result<Message, Abort> {
    if m.stage != Accepted then Err(NotAccepted)
    else
      var done := m.(stage := Completed, runs := m.runs + 1);
      match handler(m.content)
      case None => Ok(done)
      case Some(code) => Respond(done, code)
  }

  function AddAll(m: Message, chunks: seq<string>): Result<Message, Abort> {
    if chunks == [] then Ok(m)
    else
      var init :- AddAll(m, chunks[..|chunks| - 1]);
      AddContent(init, chunks[|chunks| - 1])
  }

  /** All the calls for one accepted request: its chunks, and the final call without data. */
  function Deliver(m: Message, chunks: seq<string>, handler: string -> Option<int>): Result<Message, Abort> {
    var full :- AddAll(m, chunks);
    Complete(full, handler)
  }

  function Concat(chunks: seq<string>): string {
    if chunks == [] then "" else Concat(chunks[..|chunks| - 1]) + chunks[|chunks| - 1]
  }

  // ---------------------------------------------------------------- properties

  /** The order in which the stages follow each other. */
  function Rank(s: Stage): nat {
    match s
    case Created => 0
    case Accepted => 1
    case Completed => 2
    case Responded => 3
  }

  /** While all chunks fit, they are all there; afterwards the request is answered. */
  lemma {:induction false} AddAllResult(limit: nat, chunks: seq<string>)
    ensures var m := Accept(NewMessage(limit)); var r := AddAll(m, chunks);
      && (|Concat(chunks)| <= limit ==> r == Ok(m.(content := Concat(chunks))))
      && (|Concat(chunks)| > limit && r.Ok? ==>
            r.value.stage == Responded && r.value.response == Some(413) && r.value.runs == 0)
      && (r.Ok? ==> |r.value.content| <= limit && r.value.limit == limit)
  {
    if chunks == [] {
    } else {
      AddAllResult(limit, chunks[..|chunks| - 1]);
    }
  }

  /**
   Delivering a body works exactly if it is within the limit. Then the handler runs once, on the
   concatenation of all chunks, and what it responds is the response. A larger body ends in a failed
   assert, even though the request was answered with 413 before.
   */
  lemma DeliveredIff(limit: nat, chunks: seq<string>, handler: string -> Option<int>)
    ensures var r := Deliver(Accept(NewMessage(limit)), chunks, handler);
      && (r.Ok? <==> |Concat(chunks)| <= limit)
      && (r.Ok? ==>
            && r.value.content == Concat(chunks) && r.value.runs == 1
            && r.value.response == handler(Concat(chunks))
            && r.value.stage == if r.value.response.Some? then Responded else Completed)
  {
    AddAllResult(limit, chunks);
  }

  /** A body of four bytes where three are allowed: it is answered with 413 and then fails the assert. */
  lemma OverlongFails(handler: string -> Option<int>)
    ensures var full := AddAll(Accept(NewMessage(3)), ["ab", "cd"]);
      && full.Ok? && full.value.response == Some(413)
      && Deliver(Accept(NewMessage(3)), ["ab", "cd"], handler) == Err(NotAccepted)
  {
    var m := Accept(NewMessage(3));
    assert ["ab", "cd"][..1] == ["ab"] && ["ab"][..0] == [];
    assert AddAll(m, []) == Ok(m);
    assert AddAll(m, ["ab"]) == Ok(m.(content := "ab")) by {
      assert "" + "ab" == "ab";
    }
    assert AddAll(m, ["ab", "cd"]) == AddContent(m.(content := "ab"), "cd");
  }

  /**
   A request only moves forward while its chunks arrive, its content only grows, and never beyond the
   limit; completing it moves it forward again. Whatever the chunks are: k is any earlier moment.
   */
  lemma {:induction false} OnlyForward(m: Message, chunks: seq<string>, k: nat, handler: string -> Option<int>)
    requires k <= |chunks| && |m.content| <= m.limit && AddAll(m, chunks).Ok?
    ensures AddAll(m, chunks[..k]).Ok?
    ensures var before, after := AddAll(m, chunks[..k]).value, AddAll(m, chunks).value;
      && Rank(before.stage) <= Rank(after.stage)
      && before.content <= after.content && |after.content| <= after.limit == m.limit
      && (Complete(after, handler).Ok? ==> Rank(after.stage) < Rank(Complete(after, handler).value.stage))
  {
    if k == |chunks| {
      assert chunks[..k] == chunks;
      if chunks != [] {
        OnlyForward(m, chunks[..|chunks| - 1], 0, handler);
      }
    } else {
      var init := chunks[..|chunks| - 1];
      assert init[..k] == chunks[..k];
      OnlyForward(m, init, k, handler);
    }
  }

  // ---------------------------------------------------------------- request::impl

  class Request {
    var stage: Stage
    var content: string
    var response: Option<int>
    ghost var runs: nat
    const limit: nat
    const httpMethod: Method

    /** What the asserts of accept and content ask of the method. */
    predicate HasBody() {
      httpMethod.Put? || httpMethod.Post?
    }

    ghost function Abs(): Message
      reads this
    {
      Message(stage, content, limit, response, runs)
    }

    constructor (limit: nat, httpMethod: Method)
      ensures Abs() == NewMessage(limit) && this.httpMethod == httpMethod
    {
      stage, content, response, runs := Created, "", None, 0;
      this.limit, this.httpMethod := limit, httpMethod;
    }

    /** request::accept, with its asserts as the preconditions. */
    method AcceptBody()
      requires HasBody() && stage == Created
      modifies this
      ensures Abs() == Accept(old(Abs()))
    {
      stage := Accepted;
    }

    /** What completeRequest does before it runs the handler. */
    method Begin()
      requires stage == Accepted
      modifies this
      ensures Abs() == old(Abs()).(stage := Completed, runs := old(runs) + 1)
    {
      stage := Completed;
      runs := runs + 1;
    }

    /** request::content, with its asserts as the preconditions. */
    function Content(): string
      requires HasBody() && stage == Completed
      reads this
    {
      content
    }

    /** respond_static, with its assert as the precondition. */
    method Answer(code: int)
      requires response.None?
      modifies this
      ensures Respond(old(Abs()), code) == Ok(Abs())
    {
      response := Some(code);
      stage := Responded;
    }

    /** addContent. ok is false where its assert fails. */
    method Add(upload: string) returns (ok: bool)
      modifies this
      ensures ok == AddContent(old(Abs()), upload).Ok?
      ensures AddContent(old(Abs()), upload) == if ok then Ok(Abs()) else Err(ResponseSetTwice)
    {
      if |content| + |upload| <= limit {
        content := content + upload;
        return true;
      }
      if response.Some? {
        return false;
      }
      response := Some(TOO_LARGE);
      stage := Responded;
      return true;
    }
  }
}
