# SMTP to Microsoft Graph relay — a Dafny model

SMTP-Graph-Relay is an SMTP server that accepts mail from allow-listed peers
and forwards each parsed message that has a `to` field through one Microsoft
Graph `sendMail` request. The request is sent as the mail's `From` text, or
as the configured `SENDER` when `From` is missing or empty; so the client
that writes the `From` header chooses the mailbox. A parse failure or a mail
without `to` is refused and not forwarded. All of its logic is in the callbacks that
`src/server.ts` gives to the SMTP server. This project models that logic and
proves what it does:

- `AllowList` (allow_list.dfy): the `ALLOWED_IPS` setting. It is split on
  commas as JavaScript's `split(',')` does, and `Join` is the inverse.
- `Relay` (relay.dfy): the `Relay` class holds the start-up configuration
  and `sent`, the log of requests posted to Graph. It has a method for each
  callback: `Connect` (`onConnect`), `MailFrom`, `RcptTo` and `HandleData`
  (`onData`, from the parser's result on).
- `Message` (message.dfy): the pure translation of a parsed mail into the
  send path and the Graph `message` object.
- `Base64` (base64.dfy): `Buffer.toString('base64')`, which is the encoding of
  section 4 of RFC 4648. A strict decoder is given with it, and the two are
  proved inverse in both directions.
- `Scenarios` (scenarios.dfy): the default allow-list, a plain-text mail to
  two recipients, and a session whose send fails.
- `Wrappers` (wrappers.dfy): `Option`, which stands for JavaScript's `undefined`.

JavaScript truthiness appears three times: `||` for the sender and for the
body content, and `?:` for the content type. Each time, "present" means
defined and non-empty (`Message.Present`). When neither the parsed `From`
nor `SENDER` is set, JavaScript's `+` puts the word `undefined` into the
path. `Message.SendPath` models this (`/users/undefined/sendMail`).

Some behaviour one might expect from a relay is not in the code, so it is not in the model either:

- Neither `SENDER` nor the parsed `From` has a `"Name <addr>"` wrapper
  removed. The raw `.text` goes into the path as it is.
- A list-valued `to` is never checked for being non-empty. The only check is
  `!parsed.to`, which fails only when the field is missing.
- There is no fallback when a mail has neither an HTML nor a plain-text
  body. The body `content` is then missing as well (`Option`), and the
  content type is still `Text`.

## Model

| member | source | states |
|---|---|---|
| `AllowList.Split` | src/server.ts:33 | `split(',')` always returns at least one piece, and no piece contains a comma |
| `AllowList.JoinSplit` | src/server.ts:33 | joining the pieces of a split with commas gives back the original string, so the pieces are in order, untrimmed and complete |
| `AllowList.SplitJoin` | src/server.ts:33 | a non-empty list of comma-free pieces is exactly what splitting its comma-join returns, so the split is the only such decomposition |
| `AllowList.AllowedIps` | src/server.ts:33 | the list is empty iff the setting is unset or empty; otherwise it is the comma-free pieces that join back to the setting |
| `Relay.Relay.constructor` | src/server.ts:33 | the relay starts with the allow-list parsed from `ALLOWED_IPS`, the configured `SENDER` and no request sent |
| `Relay.Relay.Connect` | src/server.ts:54-65 | an empty allow-list admits every peer; otherwise a peer is admitted iff the matcher accepts it, and any refusal is the error `Connection rejected` |
| `Relay.Relay.MailFrom` | src/server.ts:66-68 | every `MAIL FROM` is accepted; the method changes nothing |
| `Relay.Relay.RcptTo` | src/server.ts:69-71 | every `RCPT TO` is accepted; the method changes nothing |
| `Relay.Relay.HandleData` | src/server.ts:72-119 | a parse error is passed on unchanged with nothing sent; a mail without `to` gets `Missing required email fields (to)` with nothing sent; otherwise exactly one request (path from the sender, the built message) is appended, and the reply is success if the API call resolves, else `Failed to send email` with no API detail |
| `Message.Sender` | src/server.ts:84 | the sender is the parsed `From` text when it is present and non-empty, and the configured `SENDER` otherwise |
| `Message.SendPath` | src/server.ts:108 | the path is `/users/`, then the sender (`undefined` when missing), then `/sendMail`, and the sender can be read back from the middle of the path |
| `Message.RecipientTexts` | src/server.ts:85-87 | a single `to` gives a one-element list of its text; a list `to` gives its texts in the same order |
| `Message.ToRecipients` | src/server.ts:96-98 | `toRecipients` has as many entries as there are recipient texts, and entry i has address text i |
| `Message.AddressesOfRecipients` | src/server.ts:96-98 | reading the addresses back from `toRecipients` gives exactly the recipient texts, in order |
| `Message.SelectBody` | src/server.ts:93-94 | the content type is `HTML` iff an HTML body is present, and then the content is the HTML; otherwise the type is `Text` and the content is the plain-text body as given |
| `Message.ConvertAttachment` | src/server.ts:100-103 | carries the file-attachment type tag, copies the filename as `name` and the content type, and its `contentBytes` base64-decode to the original bytes |
| `Message.ConvertAttachments` | src/server.ts:99-104 | no attachments field gives no attachments field; otherwise the count and order are kept, and entry i is the conversion of attachment i |
| `Message.BuildMessage` | src/server.ts:90-105 | the message copies the subject, has content type `HTML` with the HTML when an HTML body is present and `Text` with the plain text otherwise, lists exactly the recipient texts in order, and maps the attachments so that each keeps its tag, name and type and decodes back to its bytes |
| `Base64.IndexOfAlphabet` | src/server.ts:103 | reading back the RFC 4648 alphabet character of a 6-bit value gives that value, so distinct values get distinct characters |
| `Base64.Encode` | src/server.ts:103 | the base64 text of n bytes has 4 * ceil(n / 3) characters |
| `Base64.DecodeEncode` | src/server.ts:103 | decoding the base64 text of any bytes gives back exactly those bytes |
| `Base64.EncodeDecode` | src/server.ts:103 | every text that the strict decoder accepts is the encoding of its result, so the encoding is one to one |
| `Base64.RfcTestVectors` | src/server.ts:103 | the encoder agrees with all seven test vectors in section 10 of RFC 4648, including a full group followed by a one- or two-byte padded tail |
| `Scenarios.DefaultAllowList` | src/server.ts:17 | the generated default `127.0.0.1,192.168.0.0/24` becomes the two-entry list `127.0.0.1`, `192.168.0.0/24` |
| `Scenarios.PlainTextTwoRecipientsPath` | src/server.ts:84 | a mail with no `From` is posted as the configured identity, to `/users/relay@example.com/sendMail` |
| `Scenarios.SingleHeaderTwoAddresses` | src/server.ts:85-98 | a single `to` whose text names two addresses is posted as one recipient with that text as its address |
| `Scenarios.PlainTextTwoRecipientsMessage` | src/server.ts:90-105 | a plain-text mail to two recipients gets a `Text` body, both recipients in order and an empty attachment list |

## Left out

- Generating and loading `.env`, and the 10-second exit timer (src/server.ts:12-30): file I/O and process control.
- Building the Azure credential and the Graph client (src/server.ts:36-48): outside authentication. The Graph call is modelled only by its result, `Relay.ApiResult`.
- How `ip-range-check` matches an address against a range (src/server.ts:58): the library is not part of this model. `Connect` takes the matcher as a function parameter and assumes nothing about it, so there are no CIDR or IPv6 semantics.
- MIME parsing by `mailparser`'s `simpleParser` (src/server.ts:73): the parser is not part of this model. Its result is an input (`Relay.ParseResult`), reduced to the fields the relay reads. An address object is reduced to its `.text`. A single `To:` header that names several addresses is one address object, so it becomes one recipient whose address is the joined text (`Scenarios.SingleHeaderTwoAddresses`); only separate `To:` headers give a list.
- SMTP protocol handling, `server.listen` and the `SMTP_PORT` parse (src/server.ts:122-126), and SIGTERM shutdown (src/server.ts:129-135): network, event loop and concurrency.
- Console logging and its timestamps (src/server.ts:56-63, src/server.ts:111): output only. The data the log line reads (sender, recipients) is what the model computes.
- The asynchronous callback structure of `onData`: `HandleData` runs the steps after the parser has finished, in one call. The awaited `post` becomes the `api` parameter.
