/**
 * Concrete sessions: the start-up allow-list `127.0.0.1,192.168.0.0/24`,
 * a plain-text mail to two recipients, and a session whose send fails.
 */
module Scenarios {
  import opened Wrappers
  import AllowList
  import Message
  import Relay

  const DEFAULT_ALLOWED: string := "127.0.0.1,192.168.0.0/24"

  /** The generated default setting splits into its two entries. */
  lemma DefaultAllowList()
    ensures AllowList.AllowedIps(Some(DEFAULT_ALLOWED)) == ["127.0.0.1", "192.168.0.0/24"]
  {
    var list := ["127.0.0.1", "192.168.0.0/24"];
    assert AllowList.Join(list[1..], ',') == "192.168.0.0/24";
    assert AllowList.Join(list, ',') == DEFAULT_ALLOWED;
    AllowList.SplitJoin(list, ',');
  }

  function TwoRecipientMail(): Message.ParsedMail
  {
    Message.ParsedMail(
      None, Some(Message.List(["a@example.com", "b@example.com"])),
      Some("Report"), None, Some("hello"), Some([]))
  }

  /** A plain-text mail to two recipients, no From, is posted as the configured identity. */
  lemma PlainTextTwoRecipientsPath()
    ensures Message.SendPath(Message.Sender(TwoRecipientMail(), Some("relay@example.com")))
      == "/users/relay@example.com/sendMail"
  {
    assert Message.Sender(TwoRecipientMail(), Some("relay@example.com")) == Some("relay@example.com");
    assert Message.SendPath(Some("relay@example.com")) == "/users/" + "relay@example.com" + "/sendMail";
  }

  /** Its message has a Text body, both recipients in order and no attachments. */
  lemma PlainTextTwoRecipientsMessage()
    ensures var m := Message.BuildMessage(TwoRecipientMail());
      m.body == Message.Body("Text", Some("hello")) &&
      m.toRecipients == [Message.Recipient(Message.EmailAddress("a@example.com")),
                         Message.Recipient(Message.EmailAddress("b@example.com"))] &&
      m.attachments == Some([])
  {
    var texts := ["a@example.com", "b@example.com"];
    assert Message.RecipientTexts(TwoRecipientMail().to.value) == texts;
    var rs := Message.ToRecipients(texts);
    assert rs == [Message.Recipient(Message.EmailAddress(texts[0])), Message.Recipient(Message.EmailAddress(texts[1]))];
    assert Message.SelectBody(None, Some("hello")) == Message.Body("Text", Some("hello"));
    assert Message.ConvertAttachments(Some([])) == Some([]);
  }

  /**
   * One `To:` header naming two addresses is one address object; its joined
   * `.text` becomes a single recipient address.
   */
  lemma SingleHeaderTwoAddresses()
    ensures var mail := Message.ParsedMail(
        None, Some(Message.Single("a@example.com, b@example.com")),
        None, None, Some("hello"), Some([]));
      Message.BuildMessage(mail).toRecipients
        == [Message.Recipient(Message.EmailAddress("a@example.com, b@example.com"))]
  {
    var texts := ["a@example.com, b@example.com"];
    assert Message.ToRecipients(texts) == [Message.Recipient(Message.EmailAddress(texts[0]))];
  }

  /**
   * A peer outside the list is turned away; an admitted peer whose send
   * fails gets the generic error after exactly one request.
   */
  method Session(matches: (string, seq<string>) -> bool)
    requires !matches("10.0.0.5", ["127.0.0.1", "192.168.0.0/24"])
    requires matches("192.168.0.42", ["127.0.0.1", "192.168.0.0/24"])
  {
    DefaultAllowList();
    var relay := new Relay.Relay(Some(DEFAULT_ALLOWED), Some("relay@example.com"));
    var r := relay.Connect("10.0.0.5", matches);
    assert r == Relay.Rejected(Relay.Error("Connection rejected"));
    r := relay.Connect("192.168.0.42", matches);
    assert r == Relay.Accepted;
    r := relay.MailFrom("sender@example.com");
    r := relay.RcptTo("a@example.com");
    r := relay.HandleData(Relay.Parsed(TwoRecipientMail()), Relay.ApiError("401 Unauthorized"));
    assert r == Relay.Rejected(Relay.Error("Failed to send email"));
    assert |relay.sent| == 1;
    PlainTextTwoRecipientsPath();
    assert relay.sent[0].path == "/users/relay@example.com/sendMail";
  }
}
