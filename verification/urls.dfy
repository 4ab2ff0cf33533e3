/** The fixed endpoint and referer templates. `string.Format` with a single
    `{0}` placeholder is plain concatenation: the argument is embedded
    verbatim, with no escaping. */
module Urls {
  import opened Wrappers

  /** `PUBLIC_API_STATUS`, the text before its `{0}`; nothing follows the placeholder. */
  const StatusPrefix: string := "https://www.mailinator.com/api/webinbox2?x=0&public_to="

  /** `PUBLIC_API_MESSAGE`, the text before its `{0}`. */
  const MessagePrefix: string := "https://www.mailinator.com/fetchmail?msgid="

  /** `PUBLIC_API_MESSAGE`, the text after its `{0}`. */
  const MessageSuffix: string := "&zone=public"

  /** The inbox page used as referer. */
  const InboxPage: string := "https://www.mailinator.com/inbox2.jsp"

  /** The query that names the mailbox on the inbox page. */
  const PublicToQuery: string := "?public_to="

  /** The inbox-status URL for a mailbox. */
  function StatusUrl(mailbox: string): (url: string)
    ensures StatusPrefix <= url
    ensures url[|StatusPrefix|..] == mailbox
  {
    StatusPrefix + mailbox
  }

  /** The message-fetch URL for a message id. */
  function MessageUrl(id: string): (url: string)
    ensures |url| == |MessagePrefix| + |id| + |MessageSuffix|
    ensures MessagePrefix <= url
    ensures url[|MessagePrefix|..|url| - |MessageSuffix|] == id
    ensures url[|url| - |MessageSuffix|..] == MessageSuffix
  {
    MessagePrefix + id + MessageSuffix
  }

  /** The referer of a message fetch: the inbox page with the mailbox as `public_to`. */
  function MessageReferer(mailbox: string): (referer: string)
    ensures InboxPage <= referer
    ensures referer[|InboxPage|..] == PublicToQuery + mailbox
  {
    InboxPage + PublicToQuery + mailbox
  }

  /** Read the mailbox back out of a status URL. */
  function MailboxOfStatusUrl(url: string): Option<string>
  {
    if StatusPrefix <= url then Some(url[|StatusPrefix|..]) else None
  }

  /** Read the message id back out of a message URL. */
  function IdOfMessageUrl(url: string): Option<string>
  {
    if |url| >= |MessagePrefix| + |MessageSuffix|
       && MessagePrefix <= url
       && url[|url| - |MessageSuffix|..] == MessageSuffix
    then Some(url[|MessagePrefix|..|url| - |MessageSuffix|])
    else None
  }

  /** The mailbox is recoverable from its status URL, and a URL that reads
      back as a mailbox is that mailbox's status URL. */
  lemma StatusUrlRoundTrip(mailbox: string, url: string)
    ensures MailboxOfStatusUrl(StatusUrl(mailbox)) == Some(mailbox)
    ensures MailboxOfStatusUrl(url) == Some(mailbox) <==> url == StatusUrl(mailbox)
  {
    if MailboxOfStatusUrl(url) == Some(mailbox) {
      assert url == url[..|StatusPrefix|] + url[|StatusPrefix|..];
    }
  }

  /** The id is recoverable from its message URL, and a URL that reads back
      as an id is that id's message URL. */
  lemma MessageUrlRoundTrip(id: string, url: string)
    ensures IdOfMessageUrl(MessageUrl(id)) == Some(id)
    ensures IdOfMessageUrl(url) == Some(id) <==> url == MessageUrl(id)
  {
    if IdOfMessageUrl(url) == Some(id) {
      var p, q := |MessagePrefix|, |url| - |MessageSuffix|;
      assert url == url[..p] + url[p..q] + url[q..];
    }
  }

  /** Distinct ids give distinct message URLs, and distinct mailboxes give
      distinct status URLs and referers. */
  lemma TemplatesInjective(a: string, b: string)
    ensures MessageUrl(a) == MessageUrl(b) ==> a == b
    ensures StatusUrl(a) == StatusUrl(b) ==> a == b
    ensures MessageReferer(a) == MessageReferer(b) ==> a == b
  {
    MessageUrlRoundTrip(a, MessageUrl(b));
    StatusUrlRoundTrip(a, StatusUrl(b));
    if MessageReferer(a) == MessageReferer(b) {
      assert MessageReferer(a)[|InboxPage| + |PublicToQuery|..] == a;
    }
  }

  /** The message referer ends with `public_to=` followed by the mailbox. */
  lemma RefererEndsWithMailbox(mailbox: string)
    ensures var r := MessageReferer(mailbox);
      |r| >= |"public_to="| + |mailbox| && r[|r| - |mailbox| - |"public_to="|..] == "public_to=" + mailbox
  {
    var r := MessageReferer(mailbox);
    assert r[|r| - |mailbox| - |"public_to="|..] == PublicToQuery[1..] + mailbox;
  }
}
