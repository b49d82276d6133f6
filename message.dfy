/**
 * The translation of a parsed mail into the Microsoft Graph `sendMail`
 * request: the mailbox it is sent as, the path it is posted to, and the
 * message object with its body, recipients and file attachments.
 */
module Message {
  import opened Wrappers
  import Base64

  /** `parsed.to`: one address object or a list of them, each reduced to its `.text`. */
  datatype ToField = Single(text: string) | List(texts: seq<string>)

  /** One entry of `parsed.attachments`; `content` is the decoded Buffer. */
  datatype Attachment = Attachment(filename: Option<string>, contentType: string, content: seq<Base64.byte>)

  /** The fields of the parser's result that the relay reads. */
  datatype ParsedMail = ParsedMail(
    from: Option<string>,
    to: Option<ToField>,
    subject: Option<string>,
    html: Option<string>,
    text: Option<string>,
    attachments: Option<seq<Attachment>>)

  datatype EmailAddress = EmailAddress(address: string)
  datatype Recipient = Recipient(emailAddress: EmailAddress)
  datatype Body = Body(contentType: string, content: Option<string>)
  datatype FileAttachment = FileAttachment(odataType: string, name: Option<string>, contentType: string, contentBytes: string)
  datatype GraphMessage = GraphMessage(
    subject: Option<string>,
    body: Body,
    toRecipients: seq<Recipient>,
    attachments: Option<seq<FileAttachment>>)

  const FILE_ATTACHMENT: string := "#microsoft.graph.fileAttachment"
  const HTML: string := "HTML"
  const TEXT: string := "Text"
  const PATH_PREFIX: string := "/users/"
  const PATH_SUFFIX: string := "/sendMail"
  /** What JavaScript's `+` makes of `undefined` in a string concatenation. */
  const UNDEFINED: string := "undefined"

  /** JavaScript truthiness of an optional string: defined and not empty. */
  predicate Present(s: Option<string>)
  {
    s.Some? && s.value != ""
  }

  /** `parsed.from?.text || process.env.SENDER`; None when both are missing. */
  function Sender(mail: ParsedMail, configured: Option<string>): (sender: Option<string>)
    ensures Present(mail.from) ==> sender == mail.from
    ensures !Present(mail.from) ==> sender == configured
  {
    if Present(mail.from) then mail.from else configured
  }

  /** `'/users/' + sender + '/sendMail'`; the sender occupies exactly the middle of the path. */
  function SendPath(sender: Option<string>): (path: string)
    ensures var who := if sender.Some? then sender.value else UNDEFINED;
      |path| == |PATH_PREFIX| + |who| + |PATH_SUFFIX| &&
      path[..|PATH_PREFIX|] == PATH_PREFIX &&
      path[|PATH_PREFIX|..|path| - |PATH_SUFFIX|] == who &&
      path[|path| - |PATH_SUFFIX|..] == PATH_SUFFIX
  {
    var who := if sender.Some? then sender.value else UNDEFINED;
    var path := PATH_PREFIX + who + PATH_SUFFIX;
    assert path[..|PATH_PREFIX|] == PATH_PREFIX;
    assert path[|PATH_PREFIX|..|path| - |PATH_SUFFIX|] == who;
    path
  }

  /** The body: HTML when an HTML part is present, else the plain text as it came (possibly missing). */
  function SelectBody(html: Option<string>, text: Option<string>): (body: Body)
    ensures body.contentType == HTML <==> Present(html)
    ensures body.contentType != HTML ==> body.contentType == TEXT
    ensures Present(html) ==> body.content == html
    ensures !Present(html) ==> body.content == text
  {
    Body(if Present(html) then HTML else TEXT, if Present(html) then html else text)
  }

  /** `Array.isArray(parsed.to) ? parsed.to.map(r => r.text) : [parsed.to.text]`. */
  function RecipientTexts(to: ToField): (texts: seq<string>)
    ensures to.Single? ==> texts == [to.text]
    ensures to.List? ==> texts == to.texts
  {
    match to
    case Single(t) => [t]
    case List(ts) => ts
  }

  /** `recipients.map(email => ({ emailAddress: { address: email } }))`. */
  function ToRecipients(texts: seq<string>): (rs: seq<Recipient>)
    ensures |rs| == |texts|
    ensures forall i :: 0 <= i < |rs| ==> rs[i].emailAddress.address == texts[i]
  {
    seq(|texts|, i requires 0 <= i < |texts| => Recipient(EmailAddress(texts[i])))
  }

  /** The addresses a recipient list names, in order. */
  function Addresses(rs: seq<Recipient>): seq<string>
    decreases |rs|
  {
    if |rs| == 0 then [] else [rs[0].emailAddress.address] + Addresses(rs[1..])
  }

  /** Reading the addresses back out of the recipient list gives the texts it was built from. */
  lemma {:induction false} AddressesOfRecipients(texts: seq<string>)
    ensures Addresses(ToRecipients(texts)) == texts
    decreases |texts|
  {
    if |texts| > 0 {
      AddressesOfRecipients(texts[1..]);
      assert ToRecipients(texts)[1..] == ToRecipients(texts[1..]);
    }
  }

  /** One Graph file attachment: the type tag, name and content type copied, the bytes in base64. */
  function ConvertAttachment(a: Attachment): (f: FileAttachment)
    ensures f.odataType == FILE_ATTACHMENT
    ensures f.name == a.filename && f.contentType == a.contentType
    ensures Base64.Decode(f.contentBytes) == Some(a.content)
  {
    Base64.DecodeEncode(a.content);
    FileAttachment(FILE_ATTACHMENT, a.filename, a.contentType, Base64.Encode(a.content))
  }

  /** `parsed.attachments?.map(...)`: count and order kept; no field in, no field out. */
  function ConvertAttachments(attachments: Option<seq<Attachment>>): (r: Option<seq<FileAttachment>>)
    ensures r.None? <==> attachments.None?
    ensures attachments.Some? ==>
      |r.value| == |attachments.value| &&
      forall i :: 0 <= i < |r.value| ==> r.value[i] == ConvertAttachment(attachments.value[i])
  {
    match attachments
    case None => None
    case Some(items) => Some(seq(|items|, i requires 0 <= i < |items| => ConvertAttachment(items[i])))
  }

  /** The `message` object posted to Graph, for a mail whose `to` is set. */
  function BuildMessage(mail: ParsedMail): (m: GraphMessage)
    requires mail.to.Some?
    ensures m.subject == mail.subject
    ensures m.body.contentType == HTML <==> Present(mail.html)
    ensures !Present(mail.html) ==> m.body.contentType == TEXT
    ensures m.body.content == if Present(mail.html) then mail.html else mail.text
    ensures Addresses(m.toRecipients) == RecipientTexts(mail.to.value)
    ensures m.attachments.None? <==> mail.attachments.None?
    ensures mail.attachments.Some? ==>
      |m.attachments.value| == |mail.attachments.value| &&
      forall i :: 0 <= i < |m.attachments.value| ==>
        m.attachments.value[i].odataType == FILE_ATTACHMENT &&
        m.attachments.value[i].name == mail.attachments.value[i].filename &&
        m.attachments.value[i].contentType == mail.attachments.value[i].contentType &&
        Base64.Decode(m.attachments.value[i].contentBytes) == Some(mail.attachments.value[i].content)
  {
    var recipients := RecipientTexts(mail.to.value);
    AddressesOfRecipients(recipients);
    GraphMessage(
      mail.subject,
      SelectBody(mail.html, mail.text),
      ToRecipients(recipients),
      ConvertAttachments(mail.attachments))
  }
}
