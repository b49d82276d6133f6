/**
 * The SMTP server's callbacks: connection admission, the envelope commands
 * and the data transaction, which parses, validates and forwards one mail
 * through a single Graph `sendMail` request.
 */
module Relay {
  import opened Wrappers
  import AllowList
  import Message

  /** An `Error` object handed to an SMTP callback. */
  datatype Error = Error(message: string)

  /** What a callback is given: nothing (go on) or an error (refuse). */
  datatype Reply = Accepted | Rejected(error: Error)

  /** The outcome of `simpleParser`: its error, or the parsed mail. */
  datatype ParseResult = ParseFailed(error: Error) | Parsed(mail: Message.ParsedMail)

  /** How the awaited Graph call ended: resolved, or thrown with some error detail. */
  datatype ApiResult = Delivered | ApiError(detail: string)

  /** One request posted to Graph: the path and the `message` in its body. */
  datatype Request = Request(path: string, message: Message.GraphMessage)

  const CONNECTION_REJECTED: string := "Connection rejected"
  const MISSING_TO: string := "Missing required email fields (to)"
  const SEND_FAILED: string := "Failed to send email"

  /**
   * One running relay: its start-up configuration and the log of every
   * request it has posted to Graph.
   */
  class Relay {
    const allowed: seq<string>
    const configuredSender: Option<string>
    var sent: seq<Request>

    /** Start-up: `ALLOWED_IPS` and `SENDER` as read from the environment. */
    constructor (allowedIpsSetting: Option<string>, sender: Option<string>)
      ensures allowed == AllowList.AllowedIps(allowedIpsSetting)
      ensures configuredSender == sender
      ensures sent == []
    {
      allowed := AllowList.AllowedIps(allowedIpsSetting);
      configuredSender := sender;
      sent := [];
    }

    /**
     * `onConnect`: an empty allow-list admits every peer; otherwise a peer is
     * admitted exactly when the range matcher accepts its address.
     */
    method Connect(remoteAddress: string, matches: (string, seq<string>) -> bool) returns (r: Reply)
      ensures allowed == [] ==> r == Accepted
      ensures allowed != [] ==> (r == Accepted <==> matches(remoteAddress, allowed))
      ensures r != Accepted ==> r == Rejected(Error(CONNECTION_REJECTED))
    {
      if |allowed| > 0 && !matches(remoteAddress, allowed) {
        return Rejected(Error(CONNECTION_REJECTED));
      }
      return Accepted;
    }

    /** `onMailFrom`: every envelope sender is accepted and nothing is recorded. */
    method MailFrom(address: string) returns (r: Reply)
      ensures r == Accepted
    {
      return Accepted;
    }

    /** `onRcptTo`: every envelope recipient is accepted and nothing is recorded. */
    method RcptTo(address: string) returns (r: Reply)
      ensures r == Accepted
    {
      return Accepted;
    }

    /**
     * `onData`, from the parser's callback on: a parse error is passed on as
     * it is, a mail without `to` is refused, and otherwise exactly one request
     * is posted, whose failure is reported without its detail.
     */
    method HandleData(parse: ParseResult, api: ApiResult) returns (r: Reply)
      modifies this
      ensures parse.ParseFailed? ==> r == Rejected(parse.error) && sent == old(sent)
      ensures parse.Parsed? && parse.mail.to.None? ==>
        r == Rejected(Error(MISSING_TO)) && sent == old(sent)
      ensures parse.Parsed? && parse.mail.to.Some? ==>
        sent == old(sent) + [Request(Message.SendPath(Message.Sender(parse.mail, configuredSender)),
                                     Message.BuildMessage(parse.mail))] &&
        r == (if api.Delivered? then Accepted else Rejected(Error(SEND_FAILED)))
    {
      if parse.ParseFailed? {
        return Rejected(parse.error);
      }
      var mail := parse.mail;
      if mail.to.None? {
        return Rejected(Error(MISSING_TO));
      }
      var sender := Message.Sender(mail, configuredSender);
      var message := Message.BuildMessage(mail);
      sent := sent + [Request(Message.SendPath(sender), message)];
      if api.ApiError? {
        return Rejected(Error(SEND_FAILED));
      }
      return Accepted;
    }
  }
}
