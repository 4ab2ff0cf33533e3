/** The simplified "easy mail" view handed to casual callers. */
module MailRecord {

  /** An immutable five-field value. The getters `Id`, `From`, `To`,
      `Subject` and `Body` are the destructors; there is no update
      operation, matching the private setters of the original, and no
      field is trimmed or checked, so empty strings are accepted. */
  datatype Mail = Mail(Id: string, From: string, To: string, Subject: string, Body: string)

  /** Building a mail: each getter returns exactly the argument it was given. */
  function NewMail(id: string, from: string, to: string, subject: string, body: string): (m: Mail)
    ensures m.Id == id && m.From == from
    ensures m.To == to && m.Subject == subject
    ensures m.Body == body
  {
    Mail(id, from, to, subject, body)
  }

  /** A mail carries no state beyond its five getters: two mails are equal
      exactly when all five getters agree. */
  lemma MailDeterminedByGetters(a: Mail, b: Mail)
    ensures a == b <==>
      a.Id == b.Id && a.From == b.From && a.To == b.To && a.Subject == b.Subject && a.Body == b.Body
  {
  }
}
